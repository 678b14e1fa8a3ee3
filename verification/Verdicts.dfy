/** What the verifier's answer means, said about the text, the time and the chain's reply instead of
    through the checks that compute it. */
module Verdicts {
  import opened Wrappers
  import opened Json
  import opened CredentialIds
  import opened Multibase
  import opened Resolver
  import opened Verifier
  import G = Grammar

  // ----- the fields the last two checks read

  /** A key with a non-empty text under it. */
  predicate Says(m: Object, key: string, text: string) { text != "" && key in m && m[key] == String(text) }

  predicate SaysNothing(m: Object, key: string) { !(key in m && m[key].String? && m[key].s != "") }

  /** The text of the expiry: validUntil, or expirationDate where that says nothing. */
  predicate Expires(m: Object, text: string) {
    Says(m, "validUntil", text) || (SaysNothing(m, "validUntil") && Says(m, "expirationDate", text))
  }

  predicate NeverExpires(m: Object) { SaysNothing(m, "validUntil") && SaysNothing(m, "expirationDate") }

  /** The chain is asked about this identifier and gives this reply; None is a failed call. */
  ghost predicate Asked(env: Environment, m: Object, reply: Option<bool>) {
    && env.revocation.Some?
    && exists url :: Says(m, "id", url) && AfterLast('/', url) != "" && env.revocation.value(AfterLast('/', url)) == reply
  }

  /** No checker, or no identifier to ask about. */
  ghost predicate NotAsked(env: Environment, m: Object) {
    env.revocation.None? || SaysNothing(m, "id") || exists url :: Says(m, "id", url) && AfterLast('/', url) == ""
  }

  ghost predicate NotRevoked(env: Environment, m: Object) { NotAsked(env, m) || Asked(env, m, Some(false)) }

  lemma ExpiresRead(m: Object, text: string)
    ensures Expires(m, text) ==> ExpiresAt(m) == text
    ensures NeverExpires(m) ==> ExpiresAt(m) == ""
  {
  }

  function Failing(reply: Option<bool>): Option<VerificationError> {
    match reply
    case None => Some(RevocationCheckFailed)
    case Some(revoked) => if revoked then Some(Revoked) else None
  }

  lemma AskedRead(env: Environment, m: Object, reply: Option<bool>)
    ensures Asked(env, m, reply) ==> RevocationStatus(env, m) == Failing(reply)
    ensures NotAsked(env, m) ==> RevocationStatus(env, m).None?
  {
    if url :| Says(m, "id", url) {
      assert StringField(m, "id") == url;
    }
  }

  // ----- genuine credentials

  /** The verdict on an object is determined. */
  lemma OneVerdict(env: Environment, m: Object, v: Verdict, w: Verdict)
    requires ObjectVerdict(env, m, v) && ObjectVerdict(env, m, w)
    ensures v == w
  {
  }

  function FirstOf(a: Option<VerificationError>, b: Option<VerificationError>): Option<VerificationError> {
    if a.Some? then a else b
  }

  lemma OnGenuine(env: Environment, text: string, m: Object, v: Verdict)
    requires Parse(text) == Ok(Plain(m)) && IsVerdict(env, text, v) && Genuine(env, m)
    ensures v.Finished? && (v.report.valid <==> v.report.errors == [])
    ensures match FirstOf(RevocationStatus(env, m), ExpiryStatus(env, m))
      case Some(e) => v.report.errors == [e]
      case None => v.report.errors == []
  {
    var failure := FirstOf(RevocationStatus(env, m), ExpiryStatus(env, m));
    StatusDecides(env, m, failure);
    match failure
    case Some(e) => OneVerdict(env, m, v, Finished(Describe(m).(errors := [e])));
    case None => OneVerdict(env, m, v, Finished(Describe(m).(valid := true)));
  }

  /** A genuine credential fails if the chain reports it as revoked, and also if the chain cannot
      be asked: the check fails closed.  Otherwise the time decides. */
  lemma RevocationDecides(env: Environment, text: string, m: Object, v: Verdict, reply: Option<bool>)
    requires Parse(text) == Ok(Plain(m)) && IsVerdict(env, text, v) && Genuine(env, m)
    requires Asked(env, m, reply)
    ensures v.Finished?
    ensures reply == Some(true) ==> !v.report.valid && v.report.errors == [Revoked]
    ensures reply == None ==> !v.report.valid && v.report.errors == [RevocationCheckFailed]
    ensures reply == Some(false) && NeverExpires(m) ==> v.report.valid && v.report.errors == []
  {
    OnGenuine(env, text, m, v);
    AskedRead(env, m, reply);
    ExpiresRead(m, "");
  }

  /** A genuine credential that is not revoked is valid exactly until its expiry, which must be
      readable. */
  lemma ExpiryDecides(env: Environment, text: string, m: Object, v: Verdict, expiry: string)
    requires Parse(text) == Ok(Plain(m)) && IsVerdict(env, text, v) && Genuine(env, m)
    requires NotRevoked(env, m) && Expires(m, expiry)
    ensures v.Finished?
    ensures match env.clock.parse(expiry)
      case None => !v.report.valid && v.report.errors == [BadExpiry]
      case Some(t) => (v.report.valid <==> env.now <= t) && v.report.errors == if env.now <= t then [] else [Expired]
  {
    OnGenuine(env, text, m, v);
    AskedRead(env, m, Some(false));
    ExpiresRead(m, expiry);
  }

  lemma WithoutExpiry(env: Environment, text: string, m: Object, v: Verdict)
    requires Parse(text) == Ok(Plain(m)) && IsVerdict(env, text, v) && Genuine(env, m)
    requires NotRevoked(env, m) && NeverExpires(m)
    ensures v.Finished? && v.report.valid && v.report.errors == []
  {
    OnGenuine(env, text, m, v);
    AskedRead(env, m, Some(false));
    ExpiresRead(m, "");
  }

  /** Once its expiry is past, a credential is never valid again, whatever resolves and whatever the
      chain says at a later time. */
  lemma ExpiredForEver(env: Environment, later: Environment, text: string, m: Object, v: Verdict, expiry: string, t: int)
    requires Parse(text) == Ok(Plain(m)) && Expires(m, expiry) && env.clock.parse(expiry) == Some(t)
    requires t < env.now <= later.now && later.clock == env.clock
    requires IsVerdict(later, text, v)
    ensures !(v.Finished? && v.report.valid)
  {
    ExpiresRead(m, expiry);
  }

  // ----- credentials that are not even looked at so far

  /** The issuer is named by a string, or by the id of an object. */
  predicate IssuedBy(m: Object, did: string) {
    "issuer" in m && (m["issuer"] == String(did) || (m["issuer"].Plain? && Says(m["issuer"].entries, "id", did)))
  }

  predicate HasProof(m: Object) { "proof" in m && m["proof"].Plain? }

  /** The time the chain is asked about: validFrom, or issuanceDate where that says nothing; now, if
      it cannot be read. */
  predicate IssuedOn(m: Object, text: string) {
    Says(m, "validFrom", text) || (SaysNothing(m, "validFrom") && Says(m, "issuanceDate", text))
  }

  lemma TimeRead(env: Environment, m: Object, text: string)
    requires IssuedOn(m, text)
    ensures LookupTime(env, m) == match env.clock.parse(text) case Some(t) => t case None => env.now
  {
  }

  lemma NoTimeRead(env: Environment, m: Object)
    requires SaysNothing(m, "validFrom") && SaysNothing(m, "issuanceDate")
    ensures LookupTime(env, m) == env.now
  {
  }

  lemma IssuerRead(m: Object, did: string)
    requires IssuedBy(m, did) && did != ""
    ensures IssuerInfo(m).0 == did
  {
  }

  /** The verdict on a text with an object is that on the object. */
  lemma OnText(env: Environment, text: string, m: Object, v: Verdict)
    requires Parse(text) == Ok(Plain(m)) && IsVerdict(env, text, v)
    ensures ObjectVerdict(env, m, v)
  {
  }

  /** The text is no JSON, or no object; null counts as an object without a proof. */
  lemma NotAnObject(env: Environment, text: string, v: Verdict)
    requires IsVerdict(env, text, v)
    ensures Parse(text).Err? || !(Parse(text).value.Plain? || Parse(text).value.Null?) ==>
      v.Finished? && !v.report.valid && v.report.errors == [InvalidJson]
    ensures Parse(text) == Ok(Null) ==> v.Finished? && !v.report.valid && v.report.errors == [NoProof]
  {
  }

  lemma ErrorIs(env: Environment, m: Object, v: Verdict, e: VerificationError)
    requires ObjectVerdict(env, m, v)
    ensures v.Finished? && v.report.errors == [e] <==> !Panics(env, m) && !Passes(env, m) && FirstError(env, m) == e
  {
  }

  /** The errors before any key is looked for, each exactly on the objects it is meant for. */
  lemma EarlyErrors(env: Environment, m: Object, v: Verdict)
    requires ObjectVerdict(env, m, v)
    ensures v.Finished? && v.report.errors == [NoProof] <==> "proof" !in m
    ensures v.Finished? && v.report.errors == [ProofNotObject] <==> "proof" in m && !HasProof(m)
    ensures v.Finished? && v.report.errors == [NoIssuer] <==> HasProof(m) && forall did :: did != "" ==> !IssuedBy(m, did)
  {
    NoIssuerRead(m);
    ErrorIs(env, m, v, NoProof);
    ErrorIs(env, m, v, ProofNotObject);
    ErrorIs(env, m, v, NoIssuer);
    EarlyFails(env, m);
    if !Panics(env, m) && !Passes(env, m) {
      if HasProof(m) {
        FirstWithProof(env, m);
      } else {
        FirstWithoutProof(env, m);
      }
    }
  }

  lemma EarlyFails(env: Environment, m: Object)
    ensures "proof" !in m || !m["proof"].Plain? || IssuerInfo(m).0 == "" ==> !Panics(env, m) && !Passes(env, m)
  {
  }

  lemma FirstWithoutProof(env: Environment, m: Object)
    requires !HasProof(m) && !Panics(env, m) && !Passes(env, m)
    ensures FirstError(env, m) == if "proof" !in m then NoProof else ProofNotObject
  {
  }

  lemma FirstWithProof(env: Environment, m: Object)
    requires HasProof(m) && !Panics(env, m) && !Passes(env, m)
    ensures FirstError(env, m) != NoProof && FirstError(env, m) != ProofNotObject
    ensures FirstError(env, m) == NoIssuer <==> IssuerInfo(m).0 == ""
  {
  }

  lemma NoIssuerRead(m: Object)
    ensures (forall did :: did != "" ==> !IssuedBy(m, did)) <==> IssuerInfo(m).0 == ""
  {
    if IssuerInfo(m).0 != "" {
      assert IssuedBy(m, IssuerInfo(m).0);
    }
    if did :| did != "" && IssuedBy(m, did) {
      IssuerRead(m, did);
    }
  }

  /** Then the issuer is resolved, at the credential's address and time. */
  lemma ResolutionError(env: Environment, m: Object, did: string, v: Verdict, e: ResolveError)
    requires ObjectVerdict(env, m, v) && HasProof(m) && IssuedBy(m, did) && did != ""
    requires ResolveWithFallback(env.resolver, did, FallbackAddress(m), LookupTime(env, m)) == Err(e)
    ensures v.Finished? && !v.report.valid && v.report.errors == [ResolutionFailed(e)]
  {
    IssuerRead(m, did);
  }

  /** Then the proof's key is looked for in the document. */
  lemma KeyError(env: Environment, m: Object, did: string, v: Verdict, doc: DIDDocument)
    requires ObjectVerdict(env, m, v) && HasProof(m) && IssuedBy(m, did) && did != ""
    requires ResolveWithFallback(env.resolver, did, FallbackAddress(m), LookupTime(env, m)) == Ok(doc)
    requires !FindKey(doc, StringField(Verifier.Proof(m), "verificationMethod")).KeyFound?
    ensures var search := FindKey(doc, StringField(Verifier.Proof(m), "verificationMethod"));
      if search.DecoderPanics? then v == Panic else v.Finished? && !v.report.valid && v.report.errors == [NoPublicKey(search)]
  {
    IssuerRead(m, did);
  }

  /** Then the signature's text is decoded, and the signature checked on everything but the proof,
      which has a text whenever the object was parsed from one. */
  lemma SignatureError(env: Environment, m: Object, did: string, v: Verdict, doc: DIDDocument, key: PublicKey)
    requires ObjectVerdict(env, m, v) && HasProof(m) && IssuedBy(m, did) && did != "" && SignedText(m).Ok?
    requires ResolveWithFallback(env.resolver, did, FallbackAddress(m), LookupTime(env, m)) == Ok(doc)
    requires FindKey(doc, StringField(Verifier.Proof(m), "verificationMethod")) == KeyFound(key)
    ensures var proofValue := StringField(Verifier.Proof(m), "proofValue");
      match DecodeSignature(proofValue)
      case Panicked => v == Panic
      case Failed(why) =>
        v.Finished? && !v.report.valid && v.report.errors == [if proofValue == "" then NoProofValue else BadProofValue(why)]
      case Returned(signature) =>
        env.suite.verify(key, env.suite.digest(SignedText(m).value), signature) ||
        (v.Finished? && !v.report.valid && v.report.errors == [SignatureMismatch])
  {
    IssuerRead(m, did);
  }

  // ----- spelling

  /** How a credential is spelled (blanks, escapes, order and repetition of members, text form of its
      strings) does not matter: texts of trees with one meaning get the same verdicts. */
  lemma SpellingDoesNotMatter(env: Environment, e: G.Element, text: string, f: G.Element, other: string, v: Verdict)
    requires G.Spells(e, text) && G.Within(e.tree, MAX_DEPTH) && G.Spells(f, other) && G.Within(f.tree, MAX_DEPTH)
    requires G.Meaning(e.tree) == G.Meaning(f.tree)
    ensures IsVerdict(env, text, v) <==> IsVerdict(env, other, v)
  {
    G.SpelledParses(e, MAX_DEPTH);
    G.SpelledParses(f, MAX_DEPTH);
  }

  /** Every other text is refused as no JSON. */
  lemma UnspelledIsRefused(env: Environment, text: string, v: Verdict)
    requires IsVerdict(env, text, v)
    requires forall e :: G.Spells(e, text) ==> !G.Within(e.tree, MAX_DEPTH)
    ensures v.Finished? && v.report.errors == [InvalidJson] && !v.report.valid
  {
    if Parse(text).Ok? {
      G.ParsesExactly(text, MAX_DEPTH, Parse(text).value);
    }
  }
}
