/** An issued badge keeps verifying, and a revoked one stops: the builder, any JSON printer, the
    resolver, both contracts and the verifier together. */
module EndToEnd {
  import opened Wrappers
  import opened Json
  import opened RoundTrip
  import opened Canonical
  import opened CredentialIds
  import opened Base58
  import opened Multibase
  import opened Crypto
  import opened Credential
  import opened IssuedCredential
  import opened Resolver
  import V = Verifier
  import K = KeyRegistry
  import B = BadgeRegistry

  // ----- what a text has to say to be an issued credential's

  /** The identifier the verifier asks the chain about. */
  function LookedUpId(i: Issue): string {
    AfterLast('/', CredentialURL(i.p.serverURL, CredentialId(i.p, i.uuids)))
  }

  /** The proof value is the signer's signature of everything but the proof. */
  ghost predicate SignedBy(env: V.Environment, m: V.Object, secret: SecretKey) {
    V.SignedText(m).Ok? &&
    DecodeSignature(V.StringField(V.Proof(m), "proofValue")) ==
      Returned(env.suite.sign(secret, env.suite.digest(V.SignedText(m).value)))
  }

  /** The object says what the issued credential says, as far as a verifier reads it. */
  ghost predicate Says(env: V.Environment, m: V.Object, i: Issue) {
    && "proof" in m && m["proof"].Plain?
    && V.IssuerInfo(m).0 == i.p.issuerDID && V.FallbackAddress(m) == i.p.contractAddress
    && V.LookupTime(env, m) == i.t && V.ExpiresAt(m) == ""
    && V.CredentialIdOf(m) == LookedUpId(i)
    && V.StringField(V.Proof(m), "verificationMethod") == i.keyId
    && SignedBy(env, m, i.secret)
  }

  ghost predicate Renders(env: V.Environment, text: string, m: V.Object, i: Issue) {
    Parse(text) == Ok(Plain(m)) && Says(env, m, i)
  }

  /** The verifier digests exactly the bytes that were signed. */
  lemma SameBytes(env: V.Environment, i: Issue)
    requires env.clock.RoundTrips(i.t)
    ensures V.SignedText(Meaning(env.suite, env.clock, i)) == Ok(Print(Denote(Ordered(BodyOf(env.clock, i))), GO))
  {
    var body := BodyOf(env.clock, i);
    SealedFits(i.p, i.uuids, env.clock.format(i.t), [], MAX_DEPTH);
    MeaningRead(env.suite, env.clock, i);
    BodyText(body, Meaning(env.suite, env.clock, i));
  }

  lemma BodyText(body: seq<Field>, m: V.Object)
    requires Fits(Ordered(body), MAX_DEPTH) && m - {"proof"} == DenoteFields(body)
    ensures V.SignedText(m) == Ok(Print(Denote(Ordered(body)), GO))
  {
    DenoteFits(Ordered(body), MAX_DEPTH);
    DenoteTwice(Ordered(body));
  }

  /** What an issued credential denotes says what it says. */
  lemma IssuedSays(env: V.Environment, i: Issue)
    requires env.clock.RoundTrips(i.t)
    ensures Says(env, Meaning(env.suite, env.clock, i), i)
  {
    MeaningRead(env.suite, env.clock, i);
    SameBytes(env, i);
    SignatureRoundTrip(env.suite.sign(i.secret, Message(env.suite, BodyOf(env.clock, i))));
  }

  /** Every JSON text made from the built credential renders it: by any printer, from any Go value
      of the same meaning, whatever the order of keys and whether maps are plain or ordered. */
  lemma BuiltRenders(env: V.Environment, i: Issue, v: Value, style: Style)
    requires env.clock.RoundTrips(i.t)
    requires Fits(v, MAX_DEPTH) && Denote(v) == Denote(Plain(Issued(env.suite, env.clock, i)))
    ensures Renders(env, Print(v, style), Meaning(env.suite, env.clock, i), i)
  {
    AnyRenderingReadsBack(env.suite, env.clock, i, v, style);
    IssuedSays(env, i);
  }

  // ----- keys and signatures

  function ResolvedFor(env: V.Environment, i: Issue): Result<DIDDocument, ResolveError> {
    ResolveWithFallback(env.resolver, i.p.issuerDID, i.p.contractAddress, i.t)
  }

  /** What the search for the proof's key in the resolved document ends with. */
  function KeyFor(env: V.Environment, i: Issue): KeySearch
    requires ResolvedFor(env, i).Ok?
  {
    FindKey(ResolvedFor(env, i).value, i.keyId)
  }

  /** Resolution gives the signer's key. */
  ghost predicate SignerResolved(env: V.Environment, i: Issue) {
    ResolvedFor(env, i).Ok? && KeyFor(env, i) == KeyFound(env.suite.publicKey(i.secret))
  }

  ghost function Digest(env: V.Environment, m: V.Object): seq<byte>
    requires V.SignedText(m).Ok?
  {
    env.suite.digest(V.SignedText(m).value)
  }

  /** The key accepts the signer's signature of the object. */
  ghost predicate Accepts(env: V.Environment, key: PublicKey, m: V.Object, i: Issue)
    requires V.SignedText(m).Ok?
  {
    env.suite.verify(key, Digest(env, m), env.suite.sign(i.secret, Digest(env, m)))
  }

  /** The key that resolution gives accepts the signature. */
  ghost predicate KeyAccepted(env: V.Environment, m: V.Object, i: Issue)
    requires V.SignedText(m).Ok?
  {
    ResolvedFor(env, i).Ok? && KeyFor(env, i).KeyFound? && Accepts(env, KeyFor(env, i).key, m, i)
  }

  /** The resolved key, if it is not the signer's, rejects this one signature. */
  ghost predicate OnlySigner(env: V.Environment, m: V.Object, i: Issue)
    requires V.SignedText(m).Ok?
  {
    KeyAccepted(env, m, i) ==> KeyFor(env, i).key == env.suite.publicKey(i.secret)
  }

  lemma SignerAccepted(env: V.Environment, m: V.Object, i: Issue)
    requires V.SignedText(m).Ok? && env.suite.Correct()
    ensures SignerResolved(env, i) ==> KeyAccepted(env, m, i)
    ensures OnlySigner(env, m, i) ==> (KeyAccepted(env, m, i) <==> SignerResolved(env, i))
  {
  }

  lemma ReadsAsIssued(env: V.Environment, m: V.Object, i: Issue)
    requires Says(env, m, i)
    ensures V.Resolved(env, m) == ResolvedFor(env, i)
    ensures ResolvedFor(env, i).Ok? ==> V.Key(env, m) == KeyFor(env, i)
    ensures V.ExpiryStatus(env, m).None?
  {
  }

  /** An issued credential is genuine exactly when the key that resolution gives accepts its
      signature.  This needs no law of the signature scheme. */
  lemma GenuineExactly(env: V.Environment, m: V.Object, i: Issue)
    requires Says(env, m, i) && i.p.issuerDID != ""
    ensures V.Genuine(env, m) <==> KeyAccepted(env, m, i)
    ensures KeyAccepted(env, m, i) ==> !V.Panics(env, m)
  {
    ReadsAsIssued(env, m, i);
  }

  /** The verdict on an object without an expiry. */
  lemma VerdictExactly(env: V.Environment, m: V.Object, v: V.Verdict)
    requires V.ObjectVerdict(env, m, v) && V.ExpiryStatus(env, m).None?
    requires V.Genuine(env, m) ==> !V.Panics(env, m)
    ensures v.Finished? && v.report.valid <==> V.Genuine(env, m) && V.RevocationStatus(env, m).None?
    ensures V.Genuine(env, m) ==> v.Finished?
    ensures v.Finished? && v.report.valid ==> v.report.errors == []
  {
  }

  /** Main theorem.  In whatever JSON text, an issued credential is reported valid with no errors
      exactly when the resolved key accepts its signature and the chain does not report the
      looked-up identifier as revoked.  With a correct scheme the signer's key is enough, and if the
      resolved key is not one that accepts another signer's signature it is needed. */
  lemma IssuedVerdict(env: V.Environment, text: string, m: V.Object, i: Issue, v: V.Verdict)
    requires Renders(env, text, m, i) && i.p.issuerDID != "" && V.IsVerdict(env, text, v)
    ensures v.Finished? && v.report.valid <==> KeyAccepted(env, m, i) && V.RevocationStatus(env, m).None?
    ensures v.Finished? && v.report.valid ==> v.report.errors == []
    ensures KeyAccepted(env, m, i) ==> v.Finished?
    ensures env.suite.Correct() && SignerResolved(env, i) ==>
      v.Finished? && (v.report.valid <==> V.RevocationStatus(env, m).None?)
    ensures env.suite.Correct() && OnlySigner(env, m, i) ==>
      (v.Finished? && v.report.valid <==> SignerResolved(env, i) && V.RevocationStatus(env, m).None?)
  {
    GenuineExactly(env, m, i);
    ReadsAsIssued(env, m, i);
    VerdictExactly(env, m, v);
    if env.suite.Correct() {
      SignerAccepted(env, m, i);
    }
  }

  // ----- tampering

  /** The signature made of one text is accepted on the other only if they are the same text. */
  ghost predicate Unforged(env: V.Environment, m0: V.Object, m: V.Object, i: Issue)
    requires V.SignedText(m0).Ok? && V.SignedText(m).Ok?
  {
    var signature := env.suite.sign(i.secret, Digest(env, m0));
    env.suite.verify(env.suite.publicKey(i.secret), Digest(env, m), signature) ==> V.SignedText(m) == V.SignedText(m0)
  }

  /** A text that carries an issued proof is genuine exactly when the signer's key accepts that
      signature on it; so, with a correct scheme and no forgery between the two texts, exactly when
      everything beside the proof means what was signed. */
  lemma TamperingDetected(env: V.Environment, text0: string, m0: V.Object, text: string, m: V.Object, i: Issue)
    requires Renders(env, text0, m0, i) && Parse(text) == Ok(Plain(m))
    requires "proof" in m && m["proof"] == m0["proof"] && V.IssuerInfo(m).0 != ""
    requires V.Resolved(env, m).Ok? && V.Key(env, m) == KeyFound(env.suite.publicKey(i.secret))
    ensures V.SignedText(m).Ok?
    ensures V.Genuine(env, m) <==>
      env.suite.verify(env.suite.publicKey(i.secret), Digest(env, m), env.suite.sign(i.secret, Digest(env, m0)))
    ensures env.suite.Correct() && Unforged(env, m0, m, i) ==> (V.Genuine(env, m) <==> m - {"proof"} == m0 - {"proof"})
  {
    ParsedText(text0, m0);
    ParsedText(text, m);
    assert V.Proof(m) == V.Proof(m0);
    SameTextSameValue(m - {"proof"}, m0 - {"proof"});
  }

  lemma ParsedText(text: string, m: V.Object)
    requires Parse(text) == Ok(Plain(m))
    ensures Denote(Plain(m - {"proof"})) == Plain(m - {"proof"})
    ensures V.SignedText(m) == Ok(Print(Plain(m - {"proof"}), GO))
  {
    ParseGeneric(text);
    WithoutProofGeneric(m);
  }

  lemma SameTextSameValue(a: V.Object, b: V.Object)
    requires Denote(Plain(a)) == Plain(a) && Denote(Plain(b)) == Plain(b)
    ensures Print(Plain(a), GO) == Print(Plain(b), GO) <==> a == b
  {
    if Print(Plain(a), GO) == Print(Plain(b), GO) {
      PrintInjective(Plain(a), Plain(b), GO, GO);
    }
  }

  lemma WithoutProofGeneric(m: V.Object)
    requires Generic(Plain(m), MAX_DEPTH)
    ensures Generic(Plain(m - {"proof"}), MAX_DEPTH)
    ensures V.SignedText(m) == Ok(Print(Plain(m - {"proof"}), GO))
  {
    var r := m - {"proof"};
    assert Denote(Plain(m)).entries == m;
    forall k | k in r ensures Denote(r[k]) == r[k] && Fits(r[k], MAX_DEPTH - 1) {
      assert Denote(Plain(m)).entries[k] == Denote(m[k]);
    }
    DenotesItself(r);
  }

  // ----- long-term verification through the chain

  /** A time a block can carry is its own uint256 argument. */
  lemma SmallTime(t: nat)
    requires t < 0x1_0000_0000_0000_0000_0000_0000_0000_0000
    ensures ToUint256(t) == t
  {
  }

  lemma FallbackFound(env: V.Environment, i: Issue, h: seq<K.KeyEntry>, key: PublicKey)
    requires Resolve(env.resolver, i.p.issuerDID).Err? && i.p.contractAddress != ""
    requires env.resolver.keys == Reading(h)
    requires K.KeyAtTime(h, ToUint256(i.t)).Found?
    requires K.KeyAtTime(h, ToUint256(i.t)).key == key
    ensures ResolvedFor(env, i) == Ok(FallbackDocument(i.p.issuerDID, key))
  {
  }

  /** did:web fails, and the chain shows a later state of the registry that had the signer's key
      active at the issue second. */
  ghost predicate ChainRemembers(env: V.Environment, i: Issue, atIssue: K.Registry, later: seq<K.Transaction>) {
    && 0 <= i.t < 0x1_0000_0000_0000_0000_0000_0000_0000_0000
    && Resolve(env.resolver, i.p.issuerDID).Err? && i.p.contractAddress != ""
    && env.resolver.keys == Reading(K.Run(atIssue, later).history)
    && (forall n :: 0 <= n < |later| ==> i.t < later[n].now)
    && K.KeyAtTime(atIssue.history, i.t).Found?
    && K.KeyAtTime(atIssue.history, i.t).key == env.suite.publicKey(i.secret)
  }

  /** If did:web resolution fails, a badge signed by the key active on-chain at its issue second
      resolves to the signer's key after any later transactions, if and only if its proof names
      the fallback document's key or none. */
  lemma LongTermFallback(env: V.Environment, i: Issue, atIssue: K.Registry, later: seq<K.Transaction>)
    requires ChainRemembers(env, i, atIssue, later)
    ensures SignerResolved(env, i) <==> i.keyId == "" || i.keyId == KeyId(i.p.issuerDID)
  {
    SmallTime(i.t);
    K.PastImmutable(atIssue, later, i.t);
    FallbackFound(env, i, K.Run(atIssue, later).history, env.suite.publicKey(i.secret));
    FallbackKey(i.p.issuerDID, env.suite.publicKey(i.secret), i.keyId);
  }

  /** The same for the whole verification: valid for ever, as long as it is not revoked. */
  lemma LongTermVerdict(env: V.Environment, text: string, m: V.Object, i: Issue, v: V.Verdict,
                        atIssue: K.Registry, later: seq<K.Transaction>)
    requires env.suite.Correct() && ChainRemembers(env, i, atIssue, later)
    requires i.keyId == "" || i.keyId == KeyId(i.p.issuerDID)
    requires Renders(env, text, m, i) && i.p.issuerDID != "" && V.IsVerdict(env, text, v)
    ensures v.Finished? && (v.report.valid <==> V.RevocationStatus(env, m).None?)
  {
    LongTermFallback(env, i, atIssue, later);
    IssuedVerdict(env, text, m, i, v);
  }

  /** A credential that is complete but not genuine fails at the signature check. */
  lemma WrongSignature(env: V.Environment, m: V.Object)
    requires "proof" in m && m["proof"].Plain? && V.IssuerInfo(m).0 != ""
    requires V.Resolved(env, m).Ok? && V.Key(env, m).KeyFound? && V.SignedText(m).Ok?
    requires DecodeSignature(V.StringField(V.Proof(m), "proofValue")).Returned?
    requires !V.Genuine(env, m)
    ensures !V.Panics(env, m) && V.FirstError(env, m) == V.SignatureMismatch
  {
  }

  /** The history is consulted only when did:web fails.  While did:web answers, a badge verifies
      exactly under the key the live document now gives for the proof's key name, so rotating
      that key makes earlier badges fail although the chain still knows their key. */
  lemma LiveDocumentDecides(env: V.Environment, text: string, m: V.Object, i: Issue, doc: DIDDocument, key: PublicKey, v: V.Verdict)
    requires Renders(env, text, m, i) && i.p.issuerDID != "" && V.IsVerdict(env, text, v)
    requires Resolve(env.resolver, i.p.issuerDID) == Ok(doc) && FindKey(doc, i.keyId) == KeyFound(key)
    requires V.RevocationStatus(env, m).None?
    ensures v.Finished? && (v.report.valid <==> Accepts(env, key, m, i))
    ensures v.report.errors == if Accepts(env, key, m, i) then [] else [V.SignatureMismatch]
    ensures env.suite.Correct() && OnlySigner(env, m, i) ==> (v.report.valid <==> key == env.suite.publicKey(i.secret))
  {
    GenuineExactly(env, m, i);
    ReadsAsIssued(env, m, i);
    if !V.Genuine(env, m) {
      WrongSignature(env, m);
    }
    IssuedVerdict(env, text, m, i, v);
  }

  /** The issuer's server after a rotation: its document has the new key under the old name. */
  function Rotated(env: V.Environment, i: Issue, newKey: PublicKey, keys: KeyReader): V.Environment {
    env.(resolver := Service(Some(FallbackDocument(i.p.issuerDID, newKey)), (_: string) => None, keys), revocation := None)
  }

  /** The same world without the issuer's server. */
  function Gone(env: V.Environment, keys: KeyReader): V.Environment {
    env.(resolver := Service(None, (_: string) => None, keys), revocation := None)
  }

  /** The registry rotates from the signing key to another one. */
  lemma RotationRun(i: Issue, key: PublicKey, newKey: PublicKey, owner: K.Address, rotatedAt: nat)
    returns (start: K.Registry, rotate: K.Transaction)
    requires i.p.issuerDID != "" && 0 <= i.t < rotatedAt && !K.IsZero(key) && !K.IsZero(newKey)
    ensures K.Deploy(i.p.issuerDID, key, owner, i.t) == Some(start) && K.KeyAtTime(start.history, i.t) == K.Found(key, i.t)
    ensures rotate.now == rotatedAt && K.ActiveKey(K.Run(start, [rotate]).history) == K.Found(newKey, rotatedAt)
  {
    start := K.Deploy(i.p.issuerDID, key, owner, i.t).value;
    rotate := K.Transaction(rotatedAt, owner, K.RotateKey(newKey));
    assert K.Run(start, [rotate]) == K.Run(K.Execute(start, rotate), []) by { assert [rotate][1..] == []; }
    assert start.history == [K.Fresh(key, i.t)];
  }

  /** A run in which that happens: the registry rotates from the signing key to one that does not
      accept the badge's signature, the server serves the new key under the same name, and the badge
      is rejected; once the server is gone the same text is valid again. */
  lemma RotationBreaksLiveVerification(env: V.Environment, text: string, m: V.Object, i: Issue,
                                       newKey: PublicKey, owner: K.Address, rotatedAt: nat)
    returns (keys: KeyReader)
    requires Renders(env, text, m, i) && env.suite.Correct() && !Accepts(env, newKey, m, i)
    requires i.p.issuerDID != "" && i.p.contractAddress != "" && DID_WEB <= i.p.issuerDID && i.keyId == KeyId(i.p.issuerDID)
    requires 0 <= i.t < rotatedAt && i.t < 0x1_0000_0000_0000_0000_0000_0000_0000_0000
    requires !K.IsZero(env.suite.publicKey(i.secret)) && !K.IsZero(newKey)
    ensures keys.Reading? && K.ActiveKey(keys.history) == K.Found(newKey, rotatedAt)
    ensures forall v :: V.IsVerdict(Rotated(env, i, newKey, keys), text, v) ==> v.Finished? && v.report.errors == [V.SignatureMismatch]
    ensures forall v :: V.IsVerdict(Gone(env, keys), text, v) ==> v.Finished? && v.report.valid
  {
    var start, rotate := RotationRun(i, env.suite.publicKey(i.secret), newKey, owner, rotatedAt);
    keys := Reading(K.Run(start, [rotate]).history);
    RotatedAlwaysRejects(env, text, m, i, newKey, keys);
    GoneRemembers(env, i, start, rotate, keys);
    GoneAlwaysAccepts(env, text, m, i, start, [rotate], keys);
  }

  lemma GoneRemembers(env: V.Environment, i: Issue, start: K.Registry, rotate: K.Transaction, keys: KeyReader)
    requires 0 <= i.t < rotate.now && i.t < 0x1_0000_0000_0000_0000_0000_0000_0000_0000 && i.p.contractAddress != ""
    requires K.KeyAtTime(start.history, i.t) == K.Found(env.suite.publicKey(i.secret), i.t)
    requires keys == Reading(K.Run(start, [rotate]).history)
    ensures ChainRemembers(Gone(env, keys), i, start, [rotate])
  {
  }

  lemma RotatedAlwaysRejects(env: V.Environment, text: string, m: V.Object, i: Issue, newKey: PublicKey, keys: KeyReader)
    requires Renders(env, text, m, i) && !Accepts(env, newKey, m, i)
    requires i.p.issuerDID != "" && i.keyId == KeyId(i.p.issuerDID)
    ensures forall v :: V.IsVerdict(Rotated(env, i, newKey, keys), text, v) ==> v.Finished? && v.report.errors == [V.SignatureMismatch]
  {
    forall v | V.IsVerdict(Rotated(env, i, newKey, keys), text, v)
      ensures v.Finished? && v.report.errors == [V.SignatureMismatch]
    {
      RotatedRejects(env, text, m, i, newKey, keys, v);
    }
  }

  lemma GoneAlwaysAccepts(env: V.Environment, text: string, m: V.Object, i: Issue, start: K.Registry, later: seq<K.Transaction>, keys: KeyReader)
    requires Renders(env, text, m, i) && env.suite.Correct()
    requires i.p.issuerDID != "" && i.keyId == KeyId(i.p.issuerDID) && ChainRemembers(Gone(env, keys), i, start, later)
    ensures forall v :: V.IsVerdict(Gone(env, keys), text, v) ==> v.Finished? && v.report.valid
  {
    forall v | V.IsVerdict(Gone(env, keys), text, v) ensures v.Finished? && v.report.valid {
      GoneAccepts(env, text, m, i, start, later, keys, v);
    }
  }

  /** A text says the same whoever resolves and whoever checks revocation. */
  lemma SaysElsewhere(env: V.Environment, other: V.Environment, text: string, m: V.Object, i: Issue)
    requires Renders(env, text, m, i)
    requires other.suite == env.suite && other.clock == env.clock && other.now == env.now
    ensures Renders(other, text, m, i)
    ensures forall key :: Accepts(other, key, m, i) <==> Accepts(env, key, m, i)
  {
  }

  lemma RotatedRejects(env: V.Environment, text: string, m: V.Object, i: Issue, newKey: PublicKey, keys: KeyReader, v: V.Verdict)
    requires Renders(env, text, m, i) && !Accepts(env, newKey, m, i)
    requires i.p.issuerDID != "" && i.keyId == KeyId(i.p.issuerDID)
    requires V.IsVerdict(Rotated(env, i, newKey, keys), text, v)
    ensures v.Finished? && v.report.errors == [V.SignatureMismatch]
  {
    var live := Rotated(env, i, newKey, keys);
    SaysElsewhere(env, live, text, m, i);
    FallbackKey(i.p.issuerDID, newKey, i.keyId);
    LiveDocumentDecides(live, text, m, i, FallbackDocument(i.p.issuerDID, newKey), newKey, v);
  }

  lemma GoneAccepts(env: V.Environment, text: string, m: V.Object, i: Issue, start: K.Registry, later: seq<K.Transaction>,
                    keys: KeyReader, v: V.Verdict)
    requires Renders(env, text, m, i) && env.suite.Correct()
    requires i.p.issuerDID != "" && i.keyId == KeyId(i.p.issuerDID) && ChainRemembers(Gone(env, keys), i, start, later)
    requires V.IsVerdict(Gone(env, keys), text, v)
    ensures v.Finished? && v.report.valid
  {
    var gone := Gone(env, keys);
    SaysElsewhere(env, gone, text, m, i);
    LongTermVerdict(gone, text, m, i, v, start, later);
  }

  // ----- revocation

  /** Revocation is looked up in the badge contract. */
  ghost predicate ChecksLedger(env: V.Environment, l: B.Ledger) {
    env.revocation.Some? && forall id :: env.revocation.value(id) == Some(id in l.isRevoked)
  }

  lemma RevocationRead(env: V.Environment, m: V.Object, i: Issue, l: B.Ledger)
    requires ChecksLedger(env, l) && V.CredentialIdOf(m) == LookedUpId(i)
    ensures V.RevocationStatus(env, m) ==
      if LookedUpId(i) != "" && LookedUpId(i) in l.isRevoked then Some(V.Revoked) else None
  {
  }

  /** A genuine credential that the chain reports as revoked fails for that reason. */
  lemma OnlyRevoked(env: V.Environment, m: V.Object)
    requires V.Genuine(env, m) && V.RevocationStatus(env, m).Some?
    ensures !V.Passes(env, m) && !V.Panics(env, m) && V.FirstError(env, m) == V.RevocationStatus(env, m).value
  {
  }

  /** With a key that accepts the signature, a badge fails exactly when the contract lists the
      identifier the verifier cuts out of its URL, and for that reason alone. */
  lemma RevokedExactly(env: V.Environment, text: string, m: V.Object, i: Issue, l: B.Ledger, v: V.Verdict)
    requires Renders(env, text, m, i) && i.p.issuerDID != "" && V.IsVerdict(env, text, v)
    requires KeyAccepted(env, m, i) && ChecksLedger(env, l)
    ensures v.Finished?
    ensures !v.report.valid <==> LookedUpId(i) != "" && LookedUpId(i) in l.isRevoked
    ensures v.report.errors == if v.report.valid then [] else [V.Revoked]
  {
    GenuineExactly(env, m, i);
    RevocationRead(env, m, i, l);
    IssuedVerdict(env, text, m, i, v);
    if V.RevocationStatus(env, m).Some? {
      OnlyRevoked(env, m);
    }
  }

  /** A badge revoked on-chain under its own identifier is not valid after any later transactions,
      whatever keys resolve, if the identifier has no '/' and is no UUID URN. */
  lemma RevocationStopsVerification(env: V.Environment, text: string, m: V.Object, i: Issue, v: V.Verdict,
                                    l: B.Ledger, reason: string, now: nat, later: seq<B.Transaction>)
    requires Renders(env, text, m, i) && i.p.issuerDID != "" && V.IsVerdict(env, text, v)
    requires B.Consistent(l) && B.Stamped(l, now) && B.Timely(now, later)
    requires CredentialId(i.p, i.uuids) != "" && B.Revoke(l, CredentialId(i.p, i.uuids), reason, now).Some?
    requires ChecksLedger(env, B.Run(B.Revoke(l, CredentialId(i.p, i.uuids), reason, now).value, later))
    requires '/' !in CredentialId(i.p, i.uuids) && !(URN_UUID <= CredentialId(i.p, i.uuids))
    ensures !(v.Finished? && v.report.valid)
  {
    var id := CredentialId(i.p, i.uuids);
    var last := B.Run(B.Revoke(l, id, reason, now).value, later);
    B.RevocationIsForever(l, id, reason, now, later);
    RecoveredExactly(i.p.serverURL, id);
    RevocationRead(env, m, i, last);
    IssuedVerdict(env, text, m, i, v);
  }

  /** When the badge's own identifier is the only one revoked, the badge stops verifying exactly if
      the identifier has no '/' and is no UUID URN; otherwise it goes on verifying. */
  lemma OwnRevocationExactly(env: V.Environment, text: string, m: V.Object, i: Issue, l: B.Ledger, v: V.Verdict)
    requires Renders(env, text, m, i) && i.p.issuerDID != "" && V.IsVerdict(env, text, v)
    requires KeyAccepted(env, m, i) && ChecksLedger(env, l)
    requires CredentialId(i.p, i.uuids) != "" && l.isRevoked == {CredentialId(i.p, i.uuids)}
    ensures v.Finished?
    ensures !v.report.valid <==> '/' !in CredentialId(i.p, i.uuids) && !(URN_UUID <= CredentialId(i.p, i.uuids))
  {
    RevokedExactly(env, text, m, i, l, v);
    RecoveredExactly(i.p.serverURL, CredentialId(i.p, i.uuids));
  }
}
