/** Verification of a credential given as JSON text. */
module Verifier {
  import opened Wrappers
  import opened Json
  import opened Canonical
  import opened CredentialIds
  import opened Base58
  import opened Multibase
  import opened Crypto
  import opened Resolver

  datatype Environment = Environment(
    suite: Suite,
    clock: Clock,
    now: int,
    resolver: Service,
    revocation: Option<string -> Option<bool>>) // absent checker; a failing call is None

  datatype VerificationError =
    | InvalidJson
    | NoProof
    | ProofNotObject
    | NoIssuer
    | ResolutionFailed(resolve: ResolveError)
    | NoPublicKey(search: KeySearch)
    | NotCanonicalizable
    | NoProofValue
    | BadProofValue(why: Failure)
    | SignatureMismatch
    | RevocationCheckFailed
    | Revoked
    | BadExpiry
    | Expired

  datatype Report = Report(
    valid: bool,
    issuerDID: string, issuerName: string, recipientName: string, achievementName: string,
    issuedAt: string, expiresAt: string,
    errors: seq<VerificationError>)

  /** A verification ends with a report or in a panic of the Base58 decoder. */
  datatype Verdict = Finished(report: Report) | Panic

  type Object = map<string, Value>

  // ----- field readers

  function StringField(m: Object, key: string): string {
    if key in m && m[key].String? then m[key].s else ""
  }

  /** The object under a key; the empty object when there is none, whose fields all read as "". */
  function ObjectField(m: Object, key: string): Object {
    if key in m && m[key].Plain? then m[key].entries else map[]
  }

  function IssuerInfo(m: Object): (string, string) {
    if "issuer" in m && m["issuer"].String? then (m["issuer"].s, "")
    else
      var issuer := ObjectField(m, "issuer");
      (StringField(issuer, "id"), StringField(issuer, "name"))
  }

  function FirstNonEmpty(a: string, b: string): string {
    if a == "" then b else a
  }

  function IssuedAt(m: Object): string { FirstNonEmpty(StringField(m, "validFrom"), StringField(m, "issuanceDate")) }

  function ExpiresAt(m: Object): string { FirstNonEmpty(StringField(m, "validUntil"), StringField(m, "expirationDate")) }

  function FallbackAddress(m: Object): string { StringField(ObjectField(m, "didFallback"), "contractAddress") }

  function CredentialIdOf(m: Object): string { AfterLast('/', StringField(m, "id")) }

  /** The time used for the on-chain lookup: the issue time if it parses, else now. */
  function LookupTime(env: Environment, m: Object): int {
    match env.clock.parse(IssuedAt(m))
    case Some(t) => if IssuedAt(m) != "" then t else env.now
    case None => env.now
  }

  function Describe(m: Object): Report {
    Report(false, IssuerInfo(m).0, IssuerInfo(m).1,
      StringField(ObjectField(m, "credentialSubject"), "name"),
      StringField(ObjectField(ObjectField(m, "credentialSubject"), "achievement"), "name"),
      IssuedAt(m), ExpiresAt(m), [])
  }

  // ----- the checks, each on its own

  function Proof(m: Object): Object { ObjectField(m, "proof") }

  function Resolved(env: Environment, m: Object): Result<DIDDocument, ResolveError> {
    ResolveWithFallback(env.resolver, IssuerInfo(m).0, FallbackAddress(m), LookupTime(env, m))
  }

  function Key(env: Environment, m: Object): KeySearch
    requires Resolved(env, m).Ok?
  {
    FindKey(Resolved(env, m).value, StringField(Proof(m), "verificationMethod"))
  }

  /** The text that was signed: everything but the proof. */
  ghost function SignedText(m: Object): Result<string, ()> {
    CanonicalText(Plain(m - {"proof"}))
  }

  function RevocationStatus(env: Environment, m: Object): Option<VerificationError> {
    if env.revocation.None? || CredentialIdOf(m) == "" then None
    else match env.revocation.value(CredentialIdOf(m))
      case None => Some(RevocationCheckFailed)
      case Some(revoked) => if revoked then Some(Revoked) else None
  }

  function ExpiryStatus(env: Environment, m: Object): Option<VerificationError> {
    if ExpiresAt(m) == "" then None
    else match env.clock.parse(ExpiresAt(m))
      case None => Some(BadExpiry)
      case Some(t) => if env.now > t then Some(Expired) else None
  }

  /** A credential is genuine when its issuer's key is found and its proof signs its text. */
  ghost predicate Genuine(env: Environment, m: Object) {
    && "proof" in m && m["proof"].Plain?
    && IssuerInfo(m).0 != ""
    && Resolved(env, m).Ok? && Key(env, m).KeyFound?
    && SignedText(m).Ok?
    && DecodeSignature(StringField(Proof(m), "proofValue")).Returned?
    && env.suite.verify(Key(env, m).key, env.suite.digest(SignedText(m).value),
         DecodeSignature(StringField(Proof(m), "proofValue")).value)
  }

  ghost predicate Passes(env: Environment, m: Object) {
    Genuine(env, m) && RevocationStatus(env, m).None? && ExpiryStatus(env, m).None?
  }

  /** The decoder panics on the key, or, if a key was found, on the signature. */
  ghost predicate Panics(env: Environment, m: Object) {
    && "proof" in m && m["proof"].Plain? && IssuerInfo(m).0 != "" && Resolved(env, m).Ok?
    && (Key(env, m).DecoderPanics? ||
        (Key(env, m).KeyFound? && SignedText(m).Ok? && DecodeSignature(StringField(Proof(m), "proofValue")).Panicked?))
  }

  /** The first check that fails, in the order the service makes them. */
  ghost function FirstError(env: Environment, m: Object): VerificationError
    requires !Passes(env, m) && !Panics(env, m)
  {
    if "proof" !in m then NoProof
    else if !m["proof"].Plain? then ProofNotObject
    else if IssuerInfo(m).0 == "" then NoIssuer
    else LateError(env, m)
  }

  ghost function LateError(env: Environment, m: Object): (e: VerificationError)
    requires Described(m) && !Passes(env, m) && !Panics(env, m)
    ensures !e.InvalidJson? && !e.NoProof? && !e.ProofNotObject? && !e.NoIssuer?
  {
    if Genuine(env, m) then StatusError(env, m) else KeyError(env, m)
  }

  ghost function StatusError(env: Environment, m: Object): (e: VerificationError)
    requires Genuine(env, m) && !Passes(env, m)
    ensures e.RevocationCheckFailed? || e.Revoked? || e.BadExpiry? || e.Expired?
  {
    if RevocationStatus(env, m).Some? then RevocationStatus(env, m).value else ExpiryStatus(env, m).value
  }

  ghost function KeyError(env: Environment, m: Object): VerificationError
    requires Described(m) && !Genuine(env, m) && !Panics(env, m)
    ensures !KeyError(env, m).InvalidJson? && !KeyError(env, m).NoProof?
    ensures !KeyError(env, m).ProofNotObject? && !KeyError(env, m).NoIssuer?
  {
    var proofValue := StringField(Proof(m), "proofValue");
    if Resolved(env, m).Err? then ResolutionFailed(Resolved(env, m).error)
    else if !Key(env, m).KeyFound? then NoPublicKey(Key(env, m))
    else if SignedText(m).Err? then NotCanonicalizable
    else if proofValue == "" then NoProofValue
    else if DecodeSignature(proofValue).Failed? then BadProofValue(DecodeSignature(proofValue).why)
    else SignatureMismatch
  }

  /** What verification of a text must return. */
  ghost predicate IsVerdict(env: Environment, text: string, v: Verdict) {
    match Parse(text)
    case Ok(Plain(m)) => ObjectVerdict(env, m, v)
    case Ok(Null) => ObjectVerdict(env, map[], v) // null unmarshals into a nil map
    case _ => v == Finished(BLANK.(errors := [InvalidJson]))
  }

  ghost predicate ObjectVerdict(env: Environment, m: Object, v: Verdict) {
    if Panics(env, m) then v.Panic?
    else
      && v.Finished?
      && (v.report.valid <==> Passes(env, m))
      && v.report.errors == (if Passes(env, m) then [] else [FirstError(env, m)])
      && v.report == (if Described(m) then Describe(m) else BLANK).(valid := v.report.valid, errors := v.report.errors)
  }

  const BLANK := Report(false, "", "", "", "", "", "", [])

  /** The metadata is reported once the proof and the issuer have been found. */
  predicate Described(m: Object) {
    "proof" in m && m["proof"].Plain? && IssuerInfo(m).0 != ""
  }

  // ----- the program

  /** Copy every entry but the proof, in whatever order the map is traversed. */
  method WithoutProof(m: Object) returns (r: Object)
    ensures r == m - {"proof"}
  {
    r := map[];
    var remaining := m.Keys;
    while remaining != {}
      invariant remaining <= m.Keys
      invariant r == map k | k in m && k !in remaining && k != "proof" :: m[k]
      decreases |remaining|
    {
      var k :| k in remaining;
      remaining := remaining - {k};
      if k == "proof" {
        continue;
      }
      r := r[k := m[k]];
    }
  }

  method Canonicalize(suite: Suite, m: Object) returns (r: Option<seq<byte>>)
    ensures r == match SignedText(m) case Ok(text) => Some(suite.digest(text)) case Err(_) => None
  {
    var withoutProof := WithoutProof(m);
    var canonical := CanonicalJSON(Plain(withoutProof));
    match canonical
    case Err(_) => return None;
    case Ok(text) => return Some(suite.digest(text));
  }

  method VerifyCredential(env: Environment, credentialJSON: string) returns (v: Verdict)
    ensures IsVerdict(env, credentialJSON, v)
  {
    var result := BLANK;
    match Parse(credentialJSON) {
      case Ok(Plain(m)) => v := VerifyObject(env, m);
      case Ok(Null) => v := VerifyObject(env, map[]);
      case _ => v := Finished(result.(errors := [InvalidJson]));
    }
  }

  /** Add the metadata, step by step. */
  method FillIn(m: Object, start: Report) returns (result: Report)
    ensures result == Describe(m).(
      issuerDID := start.issuerDID, issuerName := start.issuerName, valid := start.valid, errors := start.errors)
  {
    result := start.(
      recipientName := StringField(ObjectField(m, "credentialSubject"), "name"),
      achievementName := StringField(ObjectField(ObjectField(m, "credentialSubject"), "achievement"), "name"));
    result := result.(issuedAt := StringField(m, "validFrom"));
    if result.issuedAt == "" {
      result := result.(issuedAt := StringField(m, "issuanceDate"));
    }
    result := result.(expiresAt := StringField(m, "validUntil"));
    if result.expiresAt == "" {
      result := result.(expiresAt := StringField(m, "expirationDate"));
    }
  }

  method VerifyObject(env: Environment, m: Object) returns (v: Verdict)
    ensures ObjectVerdict(env, m, v)
  {
    var result := BLANK;
    if "proof" !in m {
      return Finished(result.(errors := [NoProof]));
    }
    if !m["proof"].Plain? {
      return Finished(result.(errors := [ProofNotObject]));
    }
    var proof := m["proof"].entries;

    var (issuerDID, issuerName) := IssuerInfo(m);
    if issuerDID == "" {
      return Finished(result.(errors := [NoIssuer]));
    }
    result := FillIn(m, result.(issuerDID := issuerDID, issuerName := issuerName));

    var issuedAt := env.now;
    if result.issuedAt != "" {
      match env.clock.parse(result.issuedAt) {
        case Some(t) => issuedAt := t;
        case None =>
      }
    }
    var resolved := ResolveWithFallback(env.resolver, issuerDID, FallbackAddress(m), issuedAt);
    if resolved.Err? {
      return Finished(result.(errors := [ResolutionFailed(resolved.error)]));
    }
    var search := ExtractPublicKey(resolved.value, StringField(proof, "verificationMethod"));
    if search.DecoderPanics? {
      return Panic;
    }
    if !search.KeyFound? {
      return Finished(result.(errors := [NoPublicKey(search)]));
    }
    v := CheckSignature(env, m, proof, search.key, result);
  }

  /** The second half, once the key is known. */
  method CheckSignature(env: Environment, m: Object, proof: Object, key: PublicKey, described: Report) returns (v: Verdict)
    requires "proof" in m && m["proof"] == Plain(proof) && IssuerInfo(m).0 != ""
    requires Resolved(env, m).Ok? && Key(env, m) == KeyFound(key)
    requires described == Describe(m)
    ensures ObjectVerdict(env, m, v)
  {
    var hash := Canonicalize(env.suite, m);
    if hash.None? {
      return Finished(described.(errors := [NotCanonicalizable]));
    }
    var proofValue := StringField(proof, "proofValue");
    if proofValue == "" {
      return Finished(described.(errors := [NoProofValue]));
    }
    var decoded := DecodeSignature(proofValue);
    if decoded.Panicked? {
      return Panic;
    }
    if decoded.Failed? {
      return Finished(described.(errors := [BadProofValue(decoded.why)]));
    }
    if !env.suite.verify(key, hash.value, decoded.value) {
      return Finished(described.(errors := [SignatureMismatch]));
    }

    v := CheckStatus(env, m, described);
  }

  method CheckRevocation(env: Environment, m: Object) returns (failure: Option<VerificationError>)
    ensures failure == RevocationStatus(env, m)
  {
    if env.revocation.Some? {
      var credentialID := AfterLast('/', StringField(m, "id"));
      if credentialID != "" {
        match env.revocation.value(credentialID) {
          case None => return Some(RevocationCheckFailed);
          case Some(revoked) =>
            if revoked {
              return Some(Revoked);
            }
        }
      }
    }
    return None;
  }

  method CheckExpiry(env: Environment, expiresAt: string) returns (failure: Option<VerificationError>)
    ensures forall m :: ExpiresAt(m) == expiresAt ==> failure == ExpiryStatus(env, m)
  {
    if expiresAt != "" {
      match env.clock.parse(expiresAt) {
        case None => return Some(BadExpiry);
        case Some(t) =>
          if env.now > t {
            return Some(Expired);
          }
      }
    }
    return None;
  }

  /** A genuine credential fails at the first of the last two checks, or passes. */
  lemma StatusDecides(env: Environment, m: Object, failure: Option<VerificationError>)
    requires failure == if RevocationStatus(env, m).Some? then RevocationStatus(env, m) else ExpiryStatus(env, m)
    ensures Genuine(env, m) ==> ObjectVerdict(env, m, Finished(match failure
      case Some(e) => Describe(m).(errors := [e])
      case None => Describe(m).(valid := true)))
  {
    if Genuine(env, m) && failure.Some? {
      assert FirstError(env, m) == failure.value;
    }
  }

  /** The rest, once the signature is known to be good: revocation and expiry. */
  method CheckStatus(env: Environment, m: Object, described: Report) returns (v: Verdict)
    requires described == Describe(m)
    ensures Genuine(env, m) ==> ObjectVerdict(env, m, v)
  {
    var failure := CheckRevocation(env, m);
    if failure.None? {
      failure := CheckExpiry(env, described.expiresAt);
    }
    StatusDecides(env, m, failure);
    match failure {
      case Some(e) => return Finished(described.(errors := [e]));
      case None => return Finished(described.(valid := true));
    }
  }
}
