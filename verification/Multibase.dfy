/** Ed25519 public keys and signatures as multibase text ('z' and Base58btc), in Go and Python. */
module Multibase {
  import opened Wrappers
  import opened Base58
  import opened Positional

  type PublicKey = k: seq<byte> | |k| == 32 witness seq(32, _ => 0)

  // The multicodec prefix of an Ed25519 public key.
  const ED25519_PREFIX: seq<byte> := [0xed, 0x01]

  datatype Failure =
    | EmptyInput
    | UnsupportedPrefix(first: char)
    | NotBase58(c: char)
    | BadKeyLength(length: nat)

  /** A call either returns a value, returns an error, or panics. */
  datatype Call<+T> = Returned(value: T) | Failed(why: Failure) | Panicked

  // ----- Go

  function PublicKeyMultibase(key: PublicKey): string {
    "z" + Encode(ED25519_PREFIX + key)
  }

  function SignatureMultibase(signature: seq<byte>): string {
    "z" + Encode(signature)
  }

  /** decodeMultibaseSignature: any payload length is accepted. */
  function DecodeSignature(multibase: string): Call<seq<byte>> {
    if |multibase| == 0 then Failed(EmptyInput)
    else if multibase[0] != 'z' then Failed(UnsupportedPrefix(multibase[0]))
    else match Decode(multibase[1..])
      case Bytes(b) => Returned(b)
      case InvalidCharacter(c) => Failed(NotBase58(c))
      case _ => Panicked
  }

  function DecodePublicKey(multibase: string): Call<PublicKey> {
    match DecodeSignature(multibase)
    case Failed(why) => Failed(why)
    case Panicked => Panicked
    case Returned(decoded) =>
      var stripped := if |decoded| == 34 && decoded[0] == 0xed && decoded[1] == 0x01 then decoded[2..] else decoded;
      if |stripped| != 32 then Failed(BadKeyLength(|stripped|)) else Returned(stripped)
  }

  // ----- Python; None stands for a raised exception

  function PythonEncode(raw: seq<byte>): Option<string> {
    if |raw| != 32 then None else Some("z" + Encode(ED25519_PREFIX + raw))
  }

  function PythonDecode(multibase: string): Option<seq<byte>> {
    if |multibase| == 0 || multibase[0] != 'z' then None
    else match Decode(multibase[1..])
      case Bytes(raw) =>
        if |raw| < 2 || raw[..2] != ED25519_PREFIX then None
        else if |raw[2..]| != 32 then None
        else Some(raw[2..])
      case _ => None
  }

  // ----- what every encoded key looks like

  /** The prefix is the varint of the multicodec code 0xed. */
  lemma PrefixIsVarint()
    ensures ED25519_PREFIX == [0xed % 128 + 128, 0xed / 128]
  {
  }

  // Exponents are passed as variables so that the powers are not unfolded factor by factor.
  lemma PowerOf58(e: nat)
    requires e == 44
    ensures Pow(58, e) == 0x35dc5d77b83d07b8feef18a81bd06d803b1ab9dcf25b6a6aed55f100000000000
  {
    PowTower(58, 5);
    PowTower(58, 3);
    PowTower(58, 2);
    PowAdd(58, Pow(2, 5), Pow(2, 3));
    PowAdd(58, Pow(2, 5) + Pow(2, 3), Pow(2, 2));
    Towers();
  }

  lemma Towers()
    ensures Tower(58, 5) * Tower(58, 3) * Tower(58, 2) == 0x35dc5d77b83d07b8feef18a81bd06d803b1ab9dcf25b6a6aed55f100000000000
    ensures Tower(256, 5) == 0x10000000000000000000000000000000000000000000000000000000000000000
  {
    assert Tower(58, 5) == 0xaf820335d9b3d9cf58b911d87035677fb7f528100000000;
    assert Tower(58, 3) == 0x7479027ea100 && Tower(58, 2) == 0xacad10;
  }

  lemma PowerOf256(e: nat)
    requires e == 32
    ensures Pow(256, e) == 0x10000000000000000000000000000000000000000000000000000000000000000
  {
    PowTower(256, 5);
    Towers();
  }

  /** The number of a prefixed key. */
  lemma KeyNumber(key: PublicKey, e: nat)
    requires e == 32
    ensures 0 <= Eval(256, key) < Pow(256, e)
    ensures Eval(256, ED25519_PREFIX + key) == 0xed01 * Pow(256, e) + Eval(256, key)
  {
    var rest := [0x01] + key;
    assert ED25519_PREFIX + key == [0xed] + rest;
    EvalCons(256, 0xed, rest);
    EvalCons(256, 0x01, key);
    EvalNonNegative(256, key);
    EvalBound(256, key);
    assert Pow(256, e + 1) == 256 * Pow(256, e);
  }

  /** It has 47 digits in base 58, the first three of them 5, 20 and 43. */
  lemma KeyDigits(number: nat, key: nat, a: nat, b: nat)
    requires a == 32 && b == 44 && key < Pow(256, a) && number == 0xed01 * Pow(256, a) + key
    ensures |Repr(58, number)| == 47 && Repr(58, number)[..3] == [5, 20, 43]
  {
    PowerOf256(a);
    PowerOf58(b);
    var head := 18023;
    var r := number - head * Pow(58, b);
    HeadDigits(58, head);
    ReprHead(58, head, b, r, number);
  }

  lemma HeadDigits(base: nat, head: nat)
    requires base == 58 && head == 18023
    ensures Repr(base, head) == [5, 20, 43]
  {
    assert Repr(base, 0) == [] && 5 / base == 0 && 5 % base == 5;
    assert Repr(base, 5) == [] + [5];
    ReprDigit(base, 5, 20);
    ReprDigit(base, 310, 43);
  }

  /** Every encoded key has 48 characters and starts with "z6Mk". */
  lemma KeysLookAlike(key: PublicKey)
    ensures |PublicKeyMultibase(key)| == 48 && PublicKeyMultibase(key)[..4] == "z6Mk"
  {
    var number := 0xed01 * Pow(256, 32) + Eval(256, key);
    KeyNumber(key, 32);
    KeyDigits(number, Eval(256, key), 32, 44);
    EncodedDigits(ED25519_PREFIX + key, number);
    HeadSymbols(Repr(58, number));
  }

  lemma EncodedDigits(b: seq<byte>, number: nat)
    requires b != [] && b[0] != 0 && Eval(256, b) == number
    ensures Encode(b) == Symbols(Repr(58, number))
  {
    EncodeIs(b, 0);
    assert seq(0, _ => '1') + Symbols(Repr(58, number)) == Symbols(Repr(58, number));
  }

  lemma HeadSymbols(ds: seq<int>)
    requires Digits(58, ds) && |ds| == 47 && ds[..3] == [5, 20, 43]
    ensures |"z" + Symbols(ds)| == 48 && ("z" + Symbols(ds))[..4] == "z6Mk"
  {
    assert ds[0] == ds[..3][0] && ds[1] == ds[..3][1] && ds[2] == ds[..3][2];
    AlphabetAt(5);
    AlphabetAt(20);
    AlphabetAt(43);
    LookupInjective(ALPHABET[5], '6');
    LookupInjective(ALPHABET[20], 'M');
    LookupInjective(ALPHABET[43], 'k');
  }

  // ----- theorems

  lemma SignatureRoundTrip(signature: seq<byte>)
    ensures DecodeSignature(SignatureMultibase(signature)) == Returned(signature)
  {
    DecodeEncode(signature);
    assert SignatureMultibase(signature)[1..] == Encode(signature);
  }

  /** A text decodes to some payload exactly when it is 'z' and the encoding of that payload. */
  lemma SignatureSpelling(text: string, signature: seq<byte>)
    ensures DecodeSignature(text) == Returned(signature) <==> text == SignatureMultibase(signature)
  {
    SignatureRoundTrip(signature);
    if DecodeSignature(text) == Returned(signature) {
      EncodeDecode(text[1..]);
      assert text == [text[0]] + text[1..];
    }
  }

  /** The first character outside the alphabet is at n, beyond the 256-entry lookup table. */
  ghost predicate BeyondTable(s: string, n: nat) {
    n < |s| && s[n] as int >= 256 && forall i :: 0 <= i < n ==> s[i] in ALPHABET
  }

  lemma DecodePanics(s: string)
    ensures Decode(s).IndexOutOfRange? <==> exists n: nat :: BeyondTable(s, n)
  {
    var first := FirstInvalid(s);
    forall i | 0 <= i < |s| ensures Lookup(s[i]) >= 0 <==> s[i] in ALPHABET {
      InAlphabet(s[i]);
    }
    if first < |s| && s[first] as int >= 256 {
      assert BeyondTable(s, first);
    }
    if n: nat :| BeyondTable(s, n) {
      assert Lookup(s[n]) < 0 && n == first;
    }
  }

  /** The decoder panics exactly on a 'z' text whose first character outside the alphabet lies
      beyond the lookup table; on a key and on a signature alike. */
  lemma PanicExactly(text: string)
    ensures DecodePublicKey(text).Panicked? <==> DecodeSignature(text).Panicked?
    ensures DecodeSignature(text).Panicked? <==>
      |text| > 0 && text[0] == 'z' && exists n: nat :: BeyondTable(text[1..], n)
  {
    if |text| > 0 {
      DecodePanics(text[1..]);
      NeverOverflows(text[1..]);
    }
  }

  lemma NeverOverflows(s: string)
    ensures !Decode(s).Overflow?
  {
  }

  lemma InAlphabet(c: char)
    ensures Lookup(c) >= 0 <==> c in ALPHABET
  {
    if Lookup(c) >= 0 {
      LookupInverse(c);
    } else if c in ALPHABET {
      AlphabetAt(0);
      var d :| 0 <= d < |ALPHABET| && ALPHABET[d] == c;
      AlphabetAt(d);
    }
  }

  /** Go accepts exactly two spellings of a key: with the multicodec prefix and without it. */
  lemma KeySpellings(text: string, key: PublicKey)
    ensures DecodePublicKey(text) == Returned(key) <==>
      text == PublicKeyMultibase(key) || text == SignatureMultibase(key)
  {
    SignatureSpelling(text, key);
    SignatureSpelling(text, ED25519_PREFIX + key);
    if DecodePublicKey(text) == Returned(key) {
      var decoded := DecodeSignature(text).value;
      if |decoded| == 34 {
        assert decoded == ED25519_PREFIX + key;
      }
    }
  }

  /** Go's decoder inverts both encoders. */
  lemma KeyRoundTrip(key: PublicKey)
    ensures DecodePublicKey(PublicKeyMultibase(key)) == Returned(key)
    ensures PythonEncode(key) == Some(PublicKeyMultibase(key))
    ensures PythonDecode(PublicKeyMultibase(key)) == Some(key)
  {
    KeySpellings(PublicKeyMultibase(key), key);
    PythonSpelling(PublicKeyMultibase(key), key);
  }

  lemma PythonSpelling(text: string, key: PublicKey)
    ensures PythonDecode(text) == Some(key) <==> text == PublicKeyMultibase(key)
  {
    SignatureSpelling(text, ED25519_PREFIX + key);
    if DecodeSignature(text).Returned? {
      var raw := DecodeSignature(text).value;
      assert |raw| >= 2 ==> raw == raw[..2] + raw[2..];
      assert raw == ED25519_PREFIX + key ==> raw[..2] == ED25519_PREFIX && raw[2..] == key;
    }
  }

  /** Whenever Python succeeds Go returns the same key, and Go returns a key that Python refuses
      exactly on the spelling without the prefix. */
  lemma PythonAndGoAgree(text: string, key: PublicKey)
    ensures PythonDecode(text) == Some(key) ==> DecodePublicKey(text) == Returned(key)
    ensures DecodePublicKey(text) == Returned(key) && PythonDecode(text).None? <==> text == SignatureMultibase(key)
  {
    PythonSpelling(text, key);
    KeySpellings(text, key);
    SignatureSpelling(text, key);
  }
}
