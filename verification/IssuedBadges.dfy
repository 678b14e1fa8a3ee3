/** From the request to the reader: what an issued badge and its row say about the request, and what
    the verifier reports of it. */
module IssuedBadges {
  import opened Wrappers
  import opened Json
  import opened CredentialIds
  import opened Crypto
  import opened Credential
  import opened IssuedCredential
  import opened CredentialContents
  import opened Reissue
  import opened ReissueChain
  import opened EndToEnd
  import V = Verifier

  // ----- reading an issued credential

  function RecipientOf(m: V.Object): (string, string) {
    (V.StringField(SubjectOf(m), "id"), V.StringField(SubjectOf(m), "name"))
  }

  function ImageOf(m: V.Object): string { V.StringField(V.ObjectField(AchievementOf(m), "image"), "id") }

  lemma RecipientRead(suite: Suite, clock: Clock, i: Issue)
    ensures RecipientOf(Meaning(suite, clock, i)) == (i.p.recipientDID, i.p.recipientName)
  {
    SubjectRead(suite, clock, i);
    SubjectContents(i.p, AchievementId(i.p, i.uuids));
  }

  lemma ImageRead(suite: Suite, clock: Clock, i: Issue)
    ensures ImageOf(Meaning(suite, clock, i)) == EnsureImageDataURI(i.p.imageBase64)
  {
    SubjectRead(suite, clock, i);
    AchievementContents(i.p, AchievementId(i.p, i.uuids));
  }

  lemma IssuerNamed(suite: Suite, clock: Clock, i: Issue)
    ensures var m := Meaning(suite, clock, i);
      && V.IssuerInfo(m) == (i.p.issuerDID, i.p.issuerName) && V.FallbackAddress(m) == i.p.contractAddress
      && V.StringField(m, "id") == CredentialURL(i.p.serverURL, CredentialId(i.p, i.uuids))
  {
    TopLevel(suite, clock, i);
    IssuerRead(i.p);
    FallbackRead(i.p);
    IssuerIn(Meaning(suite, clock, i), Denote(Issuer(i.p)), Denote(DidFallback(i.p)),
      i.p, CredentialURL(i.p.serverURL, CredentialId(i.p, i.uuids)));
  }

  lemma IssuerIn(m: V.Object, issuer: Value, fallback: Value, p: Params, url: string)
    requires "issuer" in m && m["issuer"] == issuer && "didFallback" in m && m["didFallback"] == fallback
    requires "id" in m && m["id"] == String(url) && issuer.Plain? && fallback.Plain?
    requires V.StringField(issuer.entries, "id") == p.issuerDID && V.StringField(issuer.entries, "name") == p.issuerName
    requires V.StringField(fallback.entries, "contractAddress") == p.contractAddress
    ensures V.IssuerInfo(m) == (p.issuerDID, p.issuerName) && V.FallbackAddress(m) == p.contractAddress
    ensures V.StringField(m, "id") == url
  {
  }

  /** The achievement keeps the identifier it was given; without one it gets a fresh UUID. */
  lemma AchievementNamed(suite: Suite, clock: Clock, i: Issue)
    ensures AchievementIdOf(Meaning(suite, clock, i)) ==
      if i.p.achievementID != "" then i.p.achievementID else "urn:uuid:" + i.uuids.achievement
  {
    AchievementIdRead(suite, clock, i);
  }

  // ----- the request

  ghost predicate SaysRequest(c: Config, q: Request, d: Draw, m: V.Object)
    requires Positive(d) && d.sequence.Some?
  {
    var id := q.universityCode + "-" + q.programCategory + "-" + Decimal(d.year) + Decimal(d.sequence.value);
    && ExtractAchievementInfo(m) == AchievementInfo(q.achievementName, q.achievementDesc, q.criteria, q.programCategory, q.programID)
    && ExtractCPSIdentity(m) == Identity(q.universityCode, q.studentID)
    && RecipientOf(m).1 == q.recipientName
    && RecipientOf(m).0 == c.issuerDID + ":users:" + (if q.studentID != "" then q.studentID else id)
    && V.IssuerInfo(m) == (c.issuerDID, c.issuerName) && V.FallbackAddress(m) == c.contractAddress
    && V.StringField(m, "id") == CredentialURL(c.serverURL, id)
    && ImageOf(m) == EnsureImageDataURI(q.imageBase64)
    && V.StringField(V.Proof(m), "verificationMethod") == d.signer.keyId
    && AchievementIdOf(m) == (if q.achievementID != "" then q.achievementID else "urn:uuid:" + d.uuids.achievement)
  }

  /** Everything that was requested stands in the issued credential, in its own place. */
  lemma IssueSaysRequest(s: Server, q: Request, secret: SecretKey, d: Draw)
    requires Positive(d) && d.sequence.Some?
    ensures SaysRequest(s.config, q, d, Meaning(s.suite, s.clock, IssueOf(s, q, secret, d)))
  {
    var i := IssueOf(s, q, secret, d);
    IssuedIdNamed(q, d);
    ExtractorsInvert(s.suite, s.clock, i);
    RecipientRead(s.suite, s.clock, i);
    ImageRead(s.suite, s.clock, i);
    IssuerNamed(s.suite, s.clock, i);
    AchievementNamed(s.suite, s.clock, i);
    SignedAndTimed(s.suite, s.clock, i);
  }

  lemma SignedAndTimed(suite: Suite, clock: Clock, i: Issue)
    ensures V.StringField(V.Proof(Meaning(suite, clock, i)), "verificationMethod") == i.keyId
    ensures V.StringField(Meaning(suite, clock, i), "validFrom") == clock.format(i.t)
  {
    TopLevel(suite, clock, i);
    ProofContents(suite, clock, i);
  }

  /** It is dated with the time of the call and signed with the key at hand. */
  lemma IssueDatedAndSigned(env: V.Environment, s: Server, q: Request, secret: SecretKey, d: Draw)
    requires Positive(d) && d.sequence.Some? && env.suite == s.suite && env.clock == s.clock && s.clock.RoundTrips(d.now)
    ensures var m := Meaning(s.suite, s.clock, IssueOf(s, q, secret, d));
      V.StringField(m, "validFrom") == s.clock.format(d.now) && SignedBy(env, m, secret)
  {
    SignedAndTimed(s.suite, s.clock, IssueOf(s, q, secret, d));
    IssuedSays(env, IssueOf(s, q, secret, d));
  }

  /** A stored text is read as an object, or as the empty one if it is null. */
  lemma StoredExactly(text: string, m: V.Object)
    ensures Stored(text) == Some(m) <==> Parse(text) == Ok(Plain(m)) || (Parse(text) == Ok(Null) && m == map[])
  {
  }

  lemma IssuedIdNamed(q: Request, d: Draw)
    requires Positive(d) && d.sequence.Some?
    ensures NewId(q.universityCode, q.programCategory, d) != ""
  {
  }

  // ----- the row

  ghost predicate RowSays(s: Server, row: Row, m: V.Object) {
    && row.blockchainHash == s.suite.digest(row.credentialJSON) && Parse(row.credentialJSON) == Ok(Plain(m))
    && row.proofValue == V.StringField(V.Proof(m), "proofValue")
    && (row.recipientDID, row.recipientName) == RecipientOf(m)
    && (row.universityCode, row.studentId) == (ExtractCPSIdentity(m).universityCode, ExtractCPSIdentity(m).studentId)
    && row.programId == ExtractAchievementInfo(m).programId
    && (row.credentialId != "" ==> V.StringField(m, "id") == CredentialURL(s.config.serverURL, row.credentialId))
  }

  /** The saved row agrees with the saved text column by column, and its hash is that of the text. */
  lemma RowSaysText(s: Server, link: Option<string>, i: Issue)
    requires i.p.serverURL == s.config.serverURL
    ensures RowSays(s, RowOf(s, link, i), Meaning(s.suite, s.clock, i)) && RowOf(s, link, i).achievementId == link
  {
    TextMeans(s, i);
    ExtractorsInvert(s.suite, s.clock, i);
    RecipientRead(s.suite, s.clock, i);
    IssuerNamed(s.suite, s.clock, i);
    ProofValueMeant(s, i);
  }

  lemma ProofValueMeant(s: Server, i: Issue)
    ensures V.StringField(V.Proof(Meaning(s.suite, s.clock, i)), "proofValue") == SignatureOf(s, i)
  {
    TopLevel(s.suite, s.clock, i);
    ProofContents(s.suite, s.clock, i);
  }

  /** The row of an issue bears the requested address, which the text leaves out. */
  lemma RowSaysAddress(s: Server, link: Option<string>, q: Request, secret: SecretKey, d: Draw)
    requires Positive(d) && d.sequence.Some?
    ensures RowOf(s, link, IssueOf(s, q, secret, d)).recipientEmail == q.recipientEmail
  {
  }

  /** A badge is linked to an achievement only if it was given one that is a UUID. */
  lemma LinkedExactly(s: Server, q: Request, id: string)
    ensures LinkOf(s, q.achievementID) == Some(id) <==> q.achievementID != "" && s.parseUuid(q.achievementID) == Some(id)
  {
  }

  /** Who a reissue is for: the recipient of the row; without one, the student of the stored text;
      without one, the new badge. */
  lemma ReissueRecipient(c: Config, row: Row, m: V.Object, image: string, id: string, student: string)
    requires student == V.StringField(V.ObjectField(SubjectOf(m), "identifier"), "identityValue")
    ensures row.recipientDID != "" ==> ReissueParams(c, row, m, image, id).recipientDID == row.recipientDID
    ensures row.recipientDID == "" && student != "" ==>
      ReissueParams(c, row, m, image, id).recipientDID == c.issuerDID + ":users:" + student
    ensures row.recipientDID == "" && student == "" ==>
      ReissueParams(c, row, m, image, id).recipientDID == c.issuerDID + ":users:" + id
  {
  }

  // ----- what the verifier reports

  /** Whatever the verdict, the report names the issuer, the recipient, the achievement and the time
      that the credential was issued with. */
  lemma ReportSaysIssue(env: V.Environment, i: Issue, v: V.Verdict)
    requires env.clock.RoundTrips(i.t) && i.p.issuerDID != ""
    requires V.ObjectVerdict(env, Meaning(env.suite, env.clock, i), v) && v.Finished?
    ensures v.report.issuerDID == i.p.issuerDID && v.report.issuerName == i.p.issuerName
    ensures v.report.recipientName == i.p.recipientName && v.report.achievementName == i.p.achievementName
    ensures v.report.issuedAt == env.clock.format(i.t) && v.report.expiresAt == ""
  {
    MeaningRead(env.suite, env.clock, i);
    RecipientRead(env.suite, env.clock, i);
    ExtractorsInvert(env.suite, env.clock, i);
    Reported(env, Meaning(env.suite, env.clock, i), v);
  }

  lemma Reported(env: V.Environment, m: V.Object, v: V.Verdict)
    requires V.ObjectVerdict(env, m, v) && v.Finished? && V.Described(m)
    ensures v.report.issuerDID == V.IssuerInfo(m).0 && v.report.issuerName == V.IssuerInfo(m).1
    ensures v.report.recipientName == RecipientOf(m).1 && v.report.achievementName == ExtractAchievementInfo(m).name
    ensures v.report.issuedAt == V.IssuedAt(m) && v.report.expiresAt == V.ExpiresAt(m)
  {
  }
}
