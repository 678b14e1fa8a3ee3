/** The hypotheses of the main theorems hold together: for every badge there are a suite with
    32-byte digests and 64-byte signatures, a clock, a resolver, a text and a verdict that meet
    all of them. */
module Witness {
  import opened Wrappers
  import opened Json
  import opened Base58
  import opened Multibase
  import opened Crypto
  import opened Credential
  import opened IssuedCredential
  import opened Resolver
  import opened EndToEnd
  import V = Verifier
  import K = KeyRegistry
  import B = BadgeRegistry
  import S = Issuance

  // ----- a suite of fixed lengths

  function Bytes32(b: byte): (r: seq<byte>)
    ensures |r| == 32
  {
    seq(32, _ => b)
  }

  /** The first 32 bytes of a message, filled up with zeros. */
  function Fixed(message: seq<byte>): (r: seq<byte>)
    ensures |r| == 32
    ensures |message| == 32 ==> r == message
  {
    (message + Bytes32(0))[..32]
  }

  /** The secret itself, where it can be a key on the chain. */
  function PlainKey(secret: SecretKey): (key: PublicKey)
    ensures !K.IsZero(key)
  {
    if |secret| == 32 && !K.IsZero(secret) then secret else
      var key := Bytes32(1);
      assert key[0] != 0;
      key
  }

  function PlainSign(secret: SecretKey, message: seq<byte>): seq<byte> { PlainKey(secret) + Fixed(message) }

  function PlainVerify(key: PublicKey, message: seq<byte>, signature: seq<byte>): bool { signature == key + Fixed(message) }

  /** The digest tells one text from all others. */
  function Marked(text: string): string -> seq<byte> {
    (s: string) => if s == text then Bytes32(0) else Bytes32(1)
  }

  function PlainSuite(text: string): Suite { Suite(Marked(text), PlainKey, PlainSign, PlainVerify) }

  ghost predicate FixedLengths(s: Suite) {
    && (forall text: string :: |s.digest(text)| == 32)
    && (forall secret: SecretKey, message: seq<byte> :: |s.sign(secret, message)| == 64)
  }

  lemma PlainSuiteCorrect(text: string)
    ensures PlainSuite(text).Correct() && FixedLengths(PlainSuite(text))
  {
    var s := PlainSuite(text);
    forall secret: SecretKey, message: seq<byte> ensures s.verify(s.publicKey(secret), message, s.sign(secret, message)) {
    }
  }

  lemma SideBySide(key: PublicKey, part: seq<byte>, key': PublicKey, part': seq<byte>)
    requires key' + part' == key + part
    ensures key == key' && part == part'
  {
    assert (key + part)[..32] == key && (key + part)[32..] == part;
    assert (key' + part')[..32] == key' && (key' + part')[32..] == part';
  }

  // ----- a world around a badge

  function ClockAt(t: int): Clock { Clock((_: int) => "now", (_: string) => Some(t)) }

  function World(signedText: string, i: Issue, resolver: Service, l: B.Ledger): V.Environment {
    V.Environment(PlainSuite(signedText), ClockAt(i.t), i.t, resolver, Some((id: string) => Some(id in l.isRevoked)))
  }

  /** The issuer's own document with the signer's key. */
  function OwnDocument(i: Issue): Service {
    Service(Some(FallbackDocument(i.p.issuerDID, PlainKey(i.secret))), (_: string) => None, Absent)
  }

  ghost function TextFor(env: V.Environment, i: Issue): string {
    Print(Plain(Issued(env.suite, env.clock, i)), GO)
  }

  ghost function ObjectFor(env: V.Environment, i: Issue): V.Object { Meaning(env.suite, env.clock, i) }

  /** Text, suite and clock are fit for every theorem, whatever resolves. */
  ghost predicate Fit(env: V.Environment, text: string, m: V.Object, i: Issue) {
    && env.suite.Correct() && FixedLengths(env.suite) && Renders(env, text, m, i) && OnlySigner(env, m, i)
    && forall other: V.Object :: V.SignedText(other).Ok? ==> Unforged(env, m, other, i)
  }

  lemma WorldRenders(env: V.Environment, i: Issue)
    requires env.clock.RoundTrips(i.t)
    ensures Renders(env, TextFor(env, i), ObjectFor(env, i), i)
  {
    IssuedMeans(env.suite, env.clock, i);
    BuiltRenders(env, i, Plain(Issued(env.suite, env.clock, i)), GO);
  }

  /** Around every badge, resolver and ledger there is such a world. */
  lemma AnyWorld(i: Issue, resolver: Service, l: B.Ledger) returns (env: V.Environment, text: string, m: V.Object)
    ensures Fit(env, text, m, i) && ChecksLedger(env, l)
    ensures env.resolver == resolver && env.suite.publicKey(i.secret) == PlainKey(i.secret)
  {
    var signedText := Print(Denote(Ordered(BodyOf(ClockAt(i.t), i))), GO);
    env := World(signedText, i, resolver, l);
    PlainSuiteCorrect(signedText);
    text, m := TextToldApart(env, i, signedText);
  }

  lemma TextToldApart(env: V.Environment, i: Issue, signedText: string) returns (text: string, m: V.Object)
    requires env.clock.RoundTrips(i.t) && env.suite == PlainSuite(signedText)
    requires signedText == Print(Denote(Ordered(BodyOf(env.clock, i))), GO)
    ensures Renders(env, text, m, i) && OnlySigner(env, m, i)
    ensures forall other: V.Object :: V.SignedText(other).Ok? ==> Unforged(env, m, other, i)
  {
    text, m := TextFor(env, i), ObjectFor(env, i);
    WorldRenders(env, i);
    SameBytes(env, i);
    SuiteTells(env, m, i, signedText);
  }

  /** The suite accepts a signature under one key and on one digest only. */
  lemma SuiteTells(env: V.Environment, m: V.Object, i: Issue, text: string)
    requires env.suite == PlainSuite(text) && V.SignedText(m) == Ok(text)
    ensures OnlySigner(env, m, i)
    ensures forall other: V.Object :: V.SignedText(other).Ok? ==> Unforged(env, m, other, i)
  {
    var own := PlainKey(i.secret);
    if KeyAccepted(env, m, i) {
      SideBySide(own, Fixed(Digest(env, m)), KeyFor(env, i).key, Fixed(Digest(env, m)));
    }
    forall other: V.Object | V.SignedText(other).Ok? ensures Unforged(env, m, other, i) {
      if PlainVerify(own, Digest(env, other), PlainSign(i.secret, Digest(env, m))) {
        SideBySide(own, Fixed(Digest(env, m)), own, Fixed(Digest(env, other)));
        assert Digest(env, m)[0] == Digest(env, other)[0];
      }
    }
  }

  function VerdictIn(env: V.Environment, m: V.Object): V.Verdict {
    match V.RevocationStatus(env, m)
    case None => V.Finished(V.Describe(m).(valid := true))
    case Some(e) => V.Finished(V.Describe(m).(errors := [e]))
  }

  lemma GenuineVerdict(env: V.Environment, m: V.Object)
    requires V.ExpiryStatus(env, m).None?
    ensures V.Genuine(env, m) ==> V.ObjectVerdict(env, m, VerdictIn(env, m))
  {
    if V.Genuine(env, m) && V.RevocationStatus(env, m).Some? {
      OnlyRevoked(env, m);
    }
  }

  /** A verdict exists once the signer's key resolves. */
  lemma VerdictExists(env: V.Environment, text: string, m: V.Object, i: Issue)
    requires Renders(env, text, m, i) && i.p.issuerDID != "" && env.suite.Correct() && SignerResolved(env, i)
    ensures KeyAccepted(env, m, i) && V.IsVerdict(env, text, VerdictIn(env, m))
  {
    SignerAccepted(env, m, i);
    GenuineExactly(env, m, i);
    ReadsAsIssued(env, m, i);
    GenuineVerdict(env, m);
  }

  /** Everything the theorems on verdicts and revocation ask for, for every badge whose issuer's
      document has the signer's key and for every ledger, so for that of every reachable state. */
  lemma HypothesesHold(i: Issue, l: B.Ledger) returns (env: V.Environment, text: string, m: V.Object, v: V.Verdict)
    requires i.p.issuerDID != "" && i.keyId == KeyId(i.p.issuerDID)
    ensures Fit(env, text, m, i) && SignerResolved(env, i) && KeyAccepted(env, m, i)
    ensures ChecksLedger(env, l) && V.IsVerdict(env, text, v)
  {
    env, text, m := AnyWorld(i, OwnDocument(i), l);
    FallbackKey(i.p.issuerDID, PlainKey(i.secret), i.keyId);
    VerdictExists(env, text, m, i);
    v := VerdictIn(env, m);
  }

  /** Everything the long-term theorems ask for: did:web gone, and a registry deployed with the
      signer's key at the issue second, after any later transactions. */
  lemma LongTermHypothesesHold(i: Issue, l: B.Ledger, owner: K.Address, later: seq<K.Transaction>)
    returns (env: V.Environment, text: string, m: V.Object, v: V.Verdict, atIssue: K.Registry)
    requires i.p.issuerDID != "" && i.p.contractAddress != "" && i.keyId == KeyId(i.p.issuerDID)
    requires 0 <= i.t < 0x1_0000_0000_0000_0000_0000_0000_0000_0000
    requires forall n :: 0 <= n < |later| ==> i.t < later[n].now
    ensures Fit(env, text, m, i) && ChainRemembers(env, i, atIssue, later)
    ensures K.Deploy(i.p.issuerDID, env.suite.publicKey(i.secret), owner, i.t) == Some(atIssue)
    ensures SignerResolved(env, i) && KeyAccepted(env, m, i)
    ensures ChecksLedger(env, l) && V.IsVerdict(env, text, v)
  {
    atIssue := DeployedAt(i, owner);
    env, text, m := AnyWorld(i, WebGone(K.Run(atIssue, later).history), l);
    RemembersFrom(env, i, atIssue, owner, later);
    v := LongTermVerdictExists(env, text, m, i, atIssue, later);
  }

  /** Everything the theorems on the life of a badge ask for: a run of the server that ends quiet with
      a badge in the database, and the next draw a reissue of it whose text is at hand. */
  lemma LifecycleHypothesesHold(i: Issue, owner: B.Address, first: S.Drawn, next: S.Drawn, reason: string, at: nat)
    returns (env: V.Environment, text: string, m: V.Object, v: V.Verdict, steps: seq<S.Step>, s: S.State)
    requires i.p.issuerDID != "" && i.keyId == KeyId(i.p.issuerDID)
    requires S.MadeFrom(first) && first.number == 1 && first.kind == S.Fresh && first.hash != 0 && reason != ""
    requires S.MadeFrom(next) && next.number == 2 && next.kind == S.Again && next.id == CredentialId(i.p, i.uuids)
    ensures S.Reaches(S.Start(true, owner), steps, s) && S.Quiet(s) && s.chain
    ensures first.id in s.rows && next.number == s.counter + 1
    ensures Fit(env, text, m, i) && KeyAccepted(env, m, i) && ChecksLedger(env, s.ledger) && V.IsVerdict(env, text, v)
  {
    steps, s := S.RevocationCanBeLost(owner, first, reason, at);
    env, text, m, v := HypothesesHold(i, s.ledger);
  }

  function DeployedAt(i: Issue, owner: K.Address): K.Registry
    requires 0 <= i.t
  {
    K.Registry(i.p.issuerDID, owner, [K.Fresh(PlainKey(i.secret), i.t)])
  }

  function WebGone(h: seq<K.KeyEntry>): Service { Service(None, (_: string) => None, Reading(h)) }

  lemma RemembersFrom(env: V.Environment, i: Issue, atIssue: K.Registry, owner: K.Address, later: seq<K.Transaction>)
    requires i.p.issuerDID != "" && i.p.contractAddress != ""
    requires 0 <= i.t < 0x1_0000_0000_0000_0000_0000_0000_0000_0000
    requires forall n :: 0 <= n < |later| ==> i.t < later[n].now
    requires env.suite.publicKey(i.secret) == PlainKey(i.secret)
    requires atIssue == DeployedAt(i, owner) && env.resolver == WebGone(K.Run(atIssue, later).history)
    ensures ChainRemembers(env, i, atIssue, later)
    ensures K.Deploy(i.p.issuerDID, env.suite.publicKey(i.secret), owner, i.t) == Some(atIssue)
  {
  }

  lemma LongTermVerdictExists(env: V.Environment, text: string, m: V.Object, i: Issue, atIssue: K.Registry, later: seq<K.Transaction>)
    returns (v: V.Verdict)
    requires Renders(env, text, m, i) && i.p.issuerDID != "" && env.suite.Correct()
    requires ChainRemembers(env, i, atIssue, later) && i.keyId == KeyId(i.p.issuerDID)
    ensures SignerResolved(env, i) && KeyAccepted(env, m, i) && V.IsVerdict(env, text, v)
  {
    LongTermFallback(env, i, atIssue, later);
    VerdictExists(env, text, m, i);
    v := VerdictIn(env, m);
  }
}
