/** The builder of signed Open Badges 3.0 credentials. */
module Credential {
  import opened Wrappers
  import opened Json
  import opened Canonical
  import opened CredentialIds
  import opened Base58
  import opened Multibase
  import opened Crypto

  datatype Params = Params(
    issuerDID: string, issuerName: string, serverURL: string, contractAddress: string,
    credentialID: string,
    achievementID: string, achievementName: string, achievementDesc: string, criteria: string,
    imageBase64: string,
    universityCode: string, programID: string, programCategory: string, studentID: string,
    recipientName: string, recipientEmail: string, recipientDID: string)

  /** The two random UUIDs a build may draw. */
  datatype Uuids = Uuids(credential: string, achievement: string)

  datatype Signer = Signer(secret: Option<SecretKey>, keyId: string)

  // ----- the parts of a credential

  function EnsureImageDataURI(img: string): string {
    if "data:image/" <= img then img else "data:image/png;base64," + img
  }

  function Texts(items: seq<string>): Value {
    Array(seq(|items|, i requires 0 <= i < |items| => String(items[i])))
  }

  function Text(key: string, s: string): Field { Field(key, String(s)) }

  function Optional(present: bool, f: Field): seq<Field> {
    if present then [f] else []
  }

  function CredentialId(p: Params, uuids: Uuids): string {
    if p.credentialID == "" then URN_UUID + uuids.credential else p.credentialID
  }

  function AchievementId(p: Params, uuids: Uuids): string {
    if p.achievementID == "" then URN_UUID + uuids.achievement else p.achievementID
  }

  function Achievement(p: Params, id: string): seq<Field> {
    [Text("id", id),
     Field("type", Texts(["Achievement"])),
     Text("name", p.achievementName),
     Text("description", p.achievementDesc),
     Field("criteria", Ordered([Text("narrative", p.criteria)]))]
    + Optional(p.programCategory != "", Text("category", p.programCategory))
    + Optional(p.programID != "", Text("programId", p.programID))
    + [Field("image", Ordered([Text("id", EnsureImageDataURI(p.imageBase64)), Text("type", "Image")]))]
  }

  function Subject(p: Params, achievementId: string): seq<Field> {
    Optional(p.recipientDID != "", Text("id", p.recipientDID))
    + [Field("type", Texts(["AchievementSubject"])), Text("name", p.recipientName)]
    + Optional(p.studentID != "",
        Field("identifier", Ordered([Text("type", "StudentId"), Text("identityValue", p.studentID)])))
    + Optional(p.universityCode != "", Field("source", Ordered([Text("code", p.universityCode)])))
    + [Field("achievement", Ordered(Achievement(p, achievementId)))]
  }

  const CREDENTIALS_CONTEXT := "https://www.w3.org/ns/credentials/v2"
  const BADGES_CONTEXT := "https://purl.imsglobal.org/spec/ob/v3p0/context-3.0.3.json"
  const FALLBACK_DESCRIPTION := "Fallback: query this Polygon contract for the issuer public key if did:web resolution fails."

  function Context(): Value {
    Texts([CREDENTIALS_CONTEXT, BADGES_CONTEXT])
  }

  function Types(): Value { Texts(["VerifiableCredential", "OpenBadgeCredential"]) }

  function Issuer(p: Params): Value {
    Ordered([Text("id", p.issuerDID), Field("type", Texts(["Profile"])), Text("name", p.issuerName)])
  }

  function DidFallback(p: Params): Value {
    Ordered([
      Text("type", "PolygonSmartContract"),
      Text("contractAddress", p.contractAddress),
      Text("description", FALLBACK_DESCRIPTION)])
  }

  function Assembled(p: Params, id: string, subject: seq<Field>, validFrom: string): seq<Field> {
    [Field("@context", Context()),
     Field("type", Types()),
     Text("id", CredentialURL(p.serverURL, id)),
     Field("issuer", Issuer(p)),
     Text("validFrom", validFrom),
     Field("credentialSubject", Ordered(subject)),
     Field("didFallback", DidFallback(p))]
  }

  function Body(p: Params, uuids: Uuids, validFrom: string): seq<Field> {
    Assembled(p, CredentialId(p, uuids), Subject(p, AchievementId(p, uuids)), validFrom)
  }

  function Proof(keyId: string, created: string, proofValue: string): seq<Field> {
    [Text("type", "DataIntegrityProof"),
     Text("cryptosuite", "eddsa-rdfc-2022"),
     Text("verificationMethod", keyId),
     Text("proofPurpose", "assertionMethod"),
     Text("created", created),
     Text("proofValue", proofValue)]
  }

  // ----- what is signed, and the finished credential

  /** The signed message: the digest of the printed meaning of the body. */
  ghost function Message(suite: Suite, body: seq<Field>): seq<byte> {
    suite.digest(Print(Denote(Ordered(body)), GO))
  }

  ghost function Sealed(suite: Suite, secret: SecretKey, keyId: string, body: seq<Field>, created: string): map<string, Value> {
    var signature := suite.sign(secret, Message(suite, body));
    ToMap(body + [Field("proof", Ordered(Proof(keyId, created, SignatureMultibase(signature))))])
  }

  // ----- nesting

  lemma {:induction false} FitsMore(v: Value, room: int, more: int)
    requires Fits(v, room) && 0 <= room <= more
    ensures Fits(v, more)
    decreases v
  {
    match v
    case Array(items) => forall x | x in items ensures Fits(x, more - 1) { FitsMore(x, room - 1, more - 1); }
    case Ordered(fields) => forall f | f in fields ensures Fits(f.value, more - 1) { FitsMore(f.value, room - 1, more - 1); }
    case Plain(m) => forall k | k in m ensures Fits(m[k], more - 1) { FitsMore(m[k], room - 1, more - 1); }
    case _ =>
  }

  lemma TextsFit(items: seq<string>, room: int)
    requires room > 0
    ensures Fits(Texts(items), room)
  {
  }

  lemma HeadFits(f0: Field, f1: Field, f2: Field, f3: Field, f4: Field, room: int)
    requires room > 0 && Fits(f0.value, room - 1) && Fits(f1.value, room - 1) && Fits(f2.value, room - 1)
    requires Fits(f3.value, room - 1) && Fits(f4.value, room - 1)
    ensures Fits(Ordered([f0, f1, f2, f3, f4]), room)
  {
    OneMoreFits([], f0, room);
    OneMoreFits([f0], f1, room);
    OneMoreFits([f0, f1], f2, room);
    OneMoreFits([f0, f1, f2], f3, room);
    OneMoreFits([f0, f1, f2, f3], f4, room);
  }

  lemma AchievementFits(p: Params, id: string)
    ensures Fits(Ordered(Achievement(p, id)), 2)
  {
    var narrative := [Text("narrative", p.criteria)];
    var picture := [Text("id", EnsureImageDataURI(p.imageBase64)), Text("type", "Image")];
    TextsFit(["Achievement"], 1);
    TextsObjectFits(narrative, 1);
    TextsObjectFits(picture, 1);
    HeadFits(Text("id", id), Field("type", Texts(["Achievement"])), Text("name", p.achievementName),
      Text("description", p.achievementDesc), Field("criteria", Ordered(narrative)), 2);
    OptionalFits(p.programCategory != "", Text("category", p.programCategory), 2);
    OptionalFits(p.programID != "", Text("programId", p.programID), 2);
    FourFit([Text("id", id), Field("type", Texts(["Achievement"])), Text("name", p.achievementName),
      Text("description", p.achievementDesc), Field("criteria", Ordered(narrative))],
      Optional(p.programCategory != "", Text("category", p.programCategory)),
      Optional(p.programID != "", Text("programId", p.programID)),
      Field("image", Ordered(picture)), 2);
  }

  lemma FourFit(a: seq<Field>, b: seq<Field>, c: seq<Field>, last: Field, room: int)
    requires Fits(Ordered(a), room) && Fits(Ordered(b), room) && Fits(Ordered(c), room) && Fits(last.value, room - 1)
    ensures Fits(Ordered(a + b + c + [last]), room)
  {
    JoinedFits(a, b, room);
    JoinedFits(a + b, c, room);
    OneMoreFits(a + b + c, last, room);
  }

  lemma TextsObjectFits(fields: seq<Field>, room: int)
    requires room > 0 && forall f :: f in fields ==> f.value.String?
    ensures Fits(Ordered(fields), room)
  {
  }

  lemma JoinedFits(a: seq<Field>, b: seq<Field>, room: int)
    requires Fits(Ordered(a), room) && Fits(Ordered(b), room)
    ensures Fits(Ordered(a + b), room)
  {
  }

  lemma OptionalFits(present: bool, f: Field, room: int)
    requires room > 0 && Fits(f.value, room - 1)
    ensures Fits(Ordered(Optional(present, f)), room)
  {
  }

  lemma SubjectPartsFit(p: Params)
    ensures Fits(Ordered(Optional(p.recipientDID != "", Text("id", p.recipientDID))), 3)
    ensures Fits(Ordered([Field("type", Texts(["AchievementSubject"])), Text("name", p.recipientName)]), 3)
  {
    TextsObjectFits(Optional(p.recipientDID != "", Text("id", p.recipientDID)), 3);
    TextsFit(["AchievementSubject"], 2);
  }

  lemma IdentityPartsFit(p: Params)
    ensures Fits(Ordered(Optional(p.studentID != "",
        Field("identifier", Ordered([Text("type", "StudentId"), Text("identityValue", p.studentID)])))), 3)
    ensures Fits(Ordered(Optional(p.universityCode != "", Field("source", Ordered([Text("code", p.universityCode)])))), 3)
  {
    var student := [Text("type", "StudentId"), Text("identityValue", p.studentID)];
    var code := [Text("code", p.universityCode)];
    TextsObjectFits(student, 2);
    TextsObjectFits(code, 2);
    OptionalFits(p.studentID != "", Field("identifier", Ordered(student)), 3);
    OptionalFits(p.universityCode != "", Field("source", Ordered(code)), 3);
  }

  lemma FiveFit(a: seq<Field>, b: seq<Field>, c: seq<Field>, d: seq<Field>, last: Field, room: int)
    requires Fits(Ordered(a), room) && Fits(Ordered(b), room) && Fits(Ordered(c), room) && Fits(Ordered(d), room)
    requires Fits(last.value, room - 1)
    ensures Fits(Ordered(a + b + c + d + [last]), room)
  {
    JoinedFits(a, b, room);
    JoinedFits(a + b, c, room);
    JoinedFits(a + b + c, d, room);
    OneMoreFits(a + b + c + d, last, room);
  }

  lemma SubjectFits(p: Params, id: string)
    ensures Fits(Ordered(Subject(p, id)), 3)
  {
    SubjectPartsFit(p);
    IdentityPartsFit(p);
    AchievementFits(p, id);
    FiveFit(
      Optional(p.recipientDID != "", Text("id", p.recipientDID)),
      [Field("type", Texts(["AchievementSubject"])), Text("name", p.recipientName)],
      Optional(p.studentID != "",
        Field("identifier", Ordered([Text("type", "StudentId"), Text("identityValue", p.studentID)]))),
      Optional(p.universityCode != "", Field("source", Ordered([Text("code", p.universityCode)]))),
      Field("achievement", Ordered(Achievement(p, id))), 3);
  }

  lemma IssuerFits(p: Params)
    ensures Fits(Issuer(p), 3)
  {
    TextsFit(["Profile"], 2);
  }

  lemma FallbackFits(p: Params)
    ensures Fits(DidFallback(p), 3)
  {
    var f := DidFallback(p).fields;
    ThreeTextsFit(f[0], f[1], f[2], 3);
    assert f == [f[0], f[1], f[2]];
  }

  lemma ThreeTextsFit(a: Field, b: Field, c: Field, room: int)
    requires a.value.String? && b.value.String? && c.value.String? && room > 0
    ensures Fits(Ordered([a, b, c]), room)
  {
  }

  lemma TypesFit()
    ensures Fits(Context(), 3) && Fits(Types(), 3)
  {
    TextsFit([CREDENTIALS_CONTEXT, BADGES_CONTEXT], 3);
    TextsFit(["VerifiableCredential", "OpenBadgeCredential"], 3);
  }

  lemma OneMoreFits(fields: seq<Field>, f: Field, room: int)
    requires Fits(Ordered(fields), room) && Fits(f.value, room - 1)
    ensures Fits(Ordered(fields + [f]), room)
  {
  }

  lemma SevenFit(f0: Field, f1: Field, f2: Field, f3: Field, f4: Field, f5: Field, f6: Field, room: int)
    requires Fits(f0.value, room - 1) && Fits(f1.value, room - 1) && Fits(f2.value, room - 1) && Fits(f3.value, room - 1)
    requires Fits(f4.value, room - 1) && Fits(f5.value, room - 1) && Fits(f6.value, room - 1) && room > 0
    ensures Fits(Ordered([f0, f1, f2, f3, f4, f5, f6]), room)
  {
    OneMoreFits([], f0, room);
    OneMoreFits([f0], f1, room);
    OneMoreFits([f0, f1], f2, room);
    OneMoreFits([f0, f1, f2], f3, room);
    OneMoreFits([f0, f1, f2, f3], f4, room);
    OneMoreFits([f0, f1, f2, f3, f4], f5, room);
    OneMoreFits([f0, f1, f2, f3, f4, f5], f6, room);
    assert [f0, f1, f2, f3, f4, f5] + [f6] == [f0, f1, f2, f3, f4, f5, f6];
  }

  lemma AssembledFits(p: Params, id: string, subject: seq<Field>, validFrom: string)
    requires Fits(Ordered(subject), 3)
    ensures Fits(Ordered(Assembled(p, id, subject, validFrom)), 4)
  {
    IssuerFits(p);
    FallbackFits(p);
    TypesFit();
    var b := Assembled(p, id, subject, validFrom);
    SevenFit(b[0], b[1], b[2], b[3], b[4], b[5], b[6], 4);
    assert b == [b[0], b[1], b[2], b[3], b[4], b[5], b[6]];
  }

  lemma BodyFits(p: Params, uuids: Uuids, validFrom: string)
    ensures Fits(Ordered(Body(p, uuids, validFrom)), 4)
  {
    SubjectFits(p, AchievementId(p, uuids));
    AssembledFits(p, CredentialId(p, uuids), Subject(p, AchievementId(p, uuids)), validFrom);
  }

  lemma BodyFitsWell(p: Params, uuids: Uuids, validFrom: string)
    ensures Fits(Ordered(Body(p, uuids, validFrom)), MAX_DEPTH)
  {
    BodyFits(p, uuids, validFrom);
    FitsMore(Ordered(Body(p, uuids, validFrom)), 4, MAX_DEPTH);
  }

  /** The finished credential is nested four deep, so encoding/json always reads it back. */
  lemma SealedFits(p: Params, uuids: Uuids, validFrom: string, proof: seq<Field>, room: int)
    requires room >= 4
    requires forall f :: f in proof ==> f.value.String?
    ensures Fits(Ordered(Body(p, uuids, validFrom)), room)
    ensures Fits(Ordered(Body(p, uuids, validFrom) + [Field("proof", Ordered(proof))]), room)
    ensures Fits(Plain(ToMap(Body(p, uuids, validFrom) + [Field("proof", Ordered(proof))])), room)
  {
    var body := Body(p, uuids, validFrom);
    BodyFits(p, uuids, validFrom);
    FitsMore(Ordered(body), 4, room);
    assert Fits(Ordered(proof), room - 1);
    ToMapFits(body + [Field("proof", Ordered(proof))], room);
  }

  // ----- the builder

  datatype BuildError = CanonicalizationFailed | SigningFailed

  method Sign(suite: Suite, signer: Signer, data: seq<byte>) returns (r: Option<seq<byte>>)
    ensures r == match signer.secret case Some(secret) => Some(suite.sign(secret, data)) case None => None
  {
    match signer.secret
    case None => return None;
    case Some(secret) => return Some(suite.sign(secret, data));
  }

  method BuildAchievement(p: Params, id: string) returns (pairs: seq<Field>)
    ensures pairs == Achievement(p, id)
  {
    var imageURI := EnsureImageDataURI(p.imageBase64);
    pairs := [
      Text("id", id),
      Field("type", Texts(["Achievement"])),
      Text("name", p.achievementName),
      Text("description", p.achievementDesc),
      Field("criteria", Ordered([Text("narrative", p.criteria)]))];
    if p.programCategory != "" {
      pairs := pairs + [Text("category", p.programCategory)];
    }
    if p.programID != "" {
      pairs := pairs + [Text("programId", p.programID)];
    }
    pairs := pairs + [Field("image", Ordered([Text("id", imageURI), Text("type", "Image")]))];
  }

  method BuildSubject(p: Params, id: string) returns (pairs: seq<Field>)
    ensures pairs == Subject(p, id)
  {
    var achievement := BuildAchievement(p, id);
    pairs := [];
    if p.recipientDID != "" {
      pairs := pairs + [Text("id", p.recipientDID)];
    }
    assert pairs == Optional(p.recipientDID != "", Text("id", p.recipientDID));
    pairs := pairs + [Field("type", Texts(["AchievementSubject"])), Text("name", p.recipientName)];
    if p.studentID != "" {
      pairs := pairs + [Field("identifier", Ordered([Text("type", "StudentId"), Text("identityValue", p.studentID)]))];
    }
    if p.universityCode != "" {
      pairs := pairs + [Field("source", Ordered([Text("code", p.universityCode)]))];
    }
    pairs := pairs + [Field("achievement", Ordered(achievement))];
  }

  /** Canonicalize, digest, sign, and attach the proof. */
  method SignBody(suite: Suite, signer: Signer, body: seq<Field>, created: string)
    returns (r: Result<map<string, Value>, BuildError>)
    ensures r == if !Fits(Ordered(body), MAX_DEPTH) then Err(CanonicalizationFailed)
      else match signer.secret
        case None => Err(SigningFailed)
        case Some(secret) => Ok(Sealed(suite, secret, signer.keyId, body, created))
  {
    var canonical := CanonicalJSON(Ordered(body));
    match canonical
    case Err(_) => return Err(CanonicalizationFailed);
    case Ok(text) =>
      var hash := suite.digest(text);
      var signature := Sign(suite, signer, hash);
      match signature
      case None => return Err(SigningFailed);
      case Some(bytes) =>
        var proofValue := SignatureMultibase(bytes);
        var proof := Proof(signer.keyId, created, proofValue);
        var credential := body + [Field("proof", Ordered(proof))];
        var m := OrderedMapToMap(credential);
        return Ok(m);
  }

  method SealBody(suite: Suite, signer: Signer, created: string, uuids: Uuids, p: Params, body: seq<Field>)
    returns (r: Result<map<string, Value>, BuildError>)
    requires body == Body(p, uuids, created)
    ensures r == match signer.secret
      case None => Err(SigningFailed)
      case Some(secret) => Ok(Sealed(suite, secret, signer.keyId, body, created))
  {
    BodyFitsWell(p, uuids, created);
    r := SignBody(suite, signer, body, created);
  }

  /** Everything but the proof. */
  method BuildBody(p: Params, uuids: Uuids, validFrom: string) returns (body: seq<Field>)
    ensures body == Body(p, uuids, validFrom)
  {
    var credentialID := p.credentialID;
    if credentialID == "" {
      credentialID := URN_UUID + uuids.credential;
    }
    var achievementURN := p.achievementID;
    if achievementURN == "" {
      achievementURN := URN_UUID + uuids.achievement;
    }
    var subject := BuildSubject(p, achievementURN);
    body := Assembled(p, credentialID, subject, validFrom);
  }

  /** A signer with a key always gets a credential, whose proof signs the digest of the meaning of
      everything before the proof. */
  method BuildCredential(suite: Suite, signer: Signer, clock: Clock, now: int, uuids: Uuids, p: Params)
    returns (r: Result<map<string, Value>, BuildError>)
    ensures r == match signer.secret
      case None => Err(SigningFailed)
      case Some(secret) =>
        Ok(Sealed(suite, secret, signer.keyId, Body(p, uuids, clock.format(now)), clock.format(now)))
  {
    var body := BuildBody(p, uuids, clock.format(now));
    r := SealBody(suite, signer, clock.format(now), uuids, p, body);
  }
}
