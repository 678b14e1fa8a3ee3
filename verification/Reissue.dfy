/** Issuing a badge and reissuing it with another image: what the new credential keeps. */
module Reissue {
  import opened Wrappers
  import opened Json
  import opened Canonical
  import opened CredentialIds
  import opened Base58
  import opened Multibase
  import opened Crypto
  import opened Credential
  import opened IssuedCredential
  import V = Verifier

  datatype Config = Config(issuerDID: string, issuerName: string, serverURL: string, contractAddress: string)

  /** `parseUuid` gives the canonical spelling of a text that uuid.Parse accepts. */
  datatype Server = Server(config: Config, suite: Suite, clock: Clock, parseUuid: string -> Option<string>)

  datatype Request = Request(
    universityCode: string, programID: string, programCategory: string, studentID: string,
    recipientName: string, recipientEmail: string,
    achievementID: string, achievementName: string, achievementDesc: string, criteria: string,
    imageBase64: string)

  /** The badges columns that issuing writes and reissuing reads. */
  datatype Row = Row(
    achievementId: Option<string>,
    recipientName: string, recipientEmail: string, recipientDID: string,
    credentialId: string, credentialJSON: string, proofValue: string, blockchainHash: seq<byte>,
    universityCode: string, programId: string, studentId: string)

  /** What a call takes from its surroundings: the current key, the clock, the sequence (None if
      the query fails) and two fresh UUIDs. */
  datatype Draw = Draw(signer: Signer, now: int, year: nat, sequence: Option<nat>, uuids: Uuids)

  predicate Positive(d: Draw) {
    0 < d.year && (d.sequence.Some? ==> 0 < d.sequence.value)
  }

  function UserDID(issuerDID: string, user: string): (r: string)
    ensures r != ""
  {
    issuerDID + ":users:" + user
  }

  // ----- issuing

  function NewId(code: string, category: string, d: Draw): string
    requires Positive(d) && d.sequence.Some?
  {
    FormatId(code, category, d.year, d.sequence.value)
  }

  function IssueParams(c: Config, q: Request, id: string): Params {
    Params(c.issuerDID, c.issuerName, c.serverURL, c.contractAddress,
      id, q.achievementID, q.achievementName, q.achievementDesc, q.criteria, q.imageBase64,
      q.universityCode, q.programID, q.programCategory, q.studentID,
      q.recipientName, q.recipientEmail,
      UserDID(c.issuerDID, if q.studentID != "" then q.studentID else id))
  }

  function LinkOf(s: Server, achievementID: string): Option<string> {
    if achievementID == "" then None else s.parseUuid(achievementID)
  }

  // ----- reading a stored credential back

  function SubjectOf(m: V.Object): V.Object { V.ObjectField(m, "credentialSubject") }

  function AchievementOf(m: V.Object): V.Object { V.ObjectField(SubjectOf(m), "achievement") }

  datatype AchievementInfo = AchievementInfo(name: string, desc: string, criteria: string, category: string, programId: string)

  function ExtractAchievementInfo(m: V.Object): AchievementInfo {
    var a := AchievementOf(m);
    AchievementInfo(V.StringField(a, "name"), V.StringField(a, "description"),
      V.StringField(V.ObjectField(a, "criteria"), "narrative"),
      V.StringField(a, "category"), V.StringField(a, "programId"))
  }

  datatype Identity = Identity(universityCode: string, studentId: string)

  function ExtractCPSIdentity(m: V.Object): Identity {
    Identity(V.StringField(V.ObjectField(SubjectOf(m), "source"), "code"),
      V.StringField(V.ObjectField(SubjectOf(m), "identifier"), "identityValue"))
  }

  // ----- the extractors invert the builder

  lemma TextAt(fields: seq<Field>, n: nat, key: string, s: string)
    requires n < |fields| && fields[n] == Text(key, s)
    requires forall j :: n < j < |fields| ==> fields[j].key != key
    ensures V.StringField(DenoteFields(fields), key) == s
  {
    FieldFound(fields, n);
  }

  lemma ObjectAt(fields: seq<Field>, n: nat, key: string, inner: seq<Field>)
    requires n < |fields| && fields[n] == Field(key, Ordered(inner))
    requires forall j :: n < j < |fields| ==> fields[j].key != key
    ensures V.ObjectField(DenoteFields(fields), key) == DenoteFields(inner)
  {
    FieldFound(fields, n);
  }

  lemma NothingAt(fields: seq<Field>, key: string)
    requires forall j :: 0 <= j < |fields| ==> fields[j].key != key
    ensures V.StringField(DenoteFields(fields), key) == ""
    ensures V.ObjectField(DenoteFields(fields), key) == map[]
  {
    FieldAbsent(fields, key);
  }

  /** A key that only an optional field can have reads as that field's text, or as "". */
  lemma OptionalText(fields: seq<Field>, before: seq<Field>, key: string, s: string, after: seq<Field>)
    requires fields == before + Optional(s != "", Text(key, s)) + after
    requires forall j :: 0 <= j < |before| ==> before[j].key != key
    requires forall j :: 0 <= j < |after| ==> after[j].key != key
    ensures V.StringField(DenoteFields(fields), key) == s
  {
    if s != "" {
      assert fields[|before|] == Text(key, s);
      assert forall j :: |before| < j < |fields| ==> fields[j] == after[j - |before| - 1];
      TextAt(fields, |before|, key, s);
    } else {
      assert fields == before + after;
      NothingAt(fields, key);
    }
  }

  lemma OptionalObject(fields: seq<Field>, before: seq<Field>, key: string, present: bool, inner: seq<Field>, after: seq<Field>)
    requires fields == before + Optional(present, Field(key, Ordered(inner))) + after
    requires forall j :: 0 <= j < |before| ==> before[j].key != key
    requires forall j :: 0 <= j < |after| ==> after[j].key != key
    ensures V.ObjectField(DenoteFields(fields), key) == if present then DenoteFields(inner) else map[]
  {
    if present {
      assert fields[|before|] == Field(key, Ordered(inner));
      assert forall j :: |before| < j < |fields| ==> fields[j] == after[j - |before| - 1];
      ObjectAt(fields, |before|, key, inner);
    } else {
      assert fields == before + after;
      NothingAt(fields, key);
    }
  }

  /** The same for a text inside an optional object. */
  lemma OptionalInner(before: seq<Field>, key: string, inner: seq<Field>, n: nat, innerKey: string, s: string, after: seq<Field>)
    requires forall j :: 0 <= j < |before| ==> before[j].key != key
    requires forall j :: 0 <= j < |after| ==> after[j].key != key
    requires n < |inner| && inner[n] == Text(innerKey, s)
    requires forall j :: n < j < |inner| ==> inner[j].key != innerKey
    ensures V.StringField(V.ObjectField(DenoteFields(before + Optional(s != "", Field(key, Ordered(inner))) + after), key), innerKey) == s
  {
    var fields := before + Optional(s != "", Field(key, Ordered(inner))) + after;
    OptionalObject(fields, before, key, s != "", inner, after);
    TextAt(inner, n, innerKey, s);
  }

  function AchievementHead(p: Params, id: string): seq<Field> {
    [Text("id", id), Field("type", Texts(["Achievement"])), Text("name", p.achievementName),
     Text("description", p.achievementDesc), Field("criteria", Ordered([Text("narrative", p.criteria)]))]
  }

  function Image(p: Params): Field {
    Field("image", Ordered([Text("id", EnsureImageDataURI(p.imageBase64)), Text("type", "Image")]))
  }

  lemma KeyLengths()
    ensures |"id"| == 2 && |"type"| == 4 && |"name"| == 4 && |"description"| == 11 && |"criteria"| == 8
    ensures |"category"| == 8 && |"programId"| == 9 && |"image"| == 5
    ensures |"identifier"| == 10 && |"source"| == 6 && |"achievement"| == 11
  {
  }

  /** The five fields every achievement starts with, and none of their keys after them. */
  ghost predicate Headed(a: seq<Field>) {
    && |a| >= 5 && a[0].key == "id" && a[1].key == "type" && a[2].key == "name" && a[3].key == "description" && a[4].key == "criteria"
    && forall j :: 5 <= j < |a| ==> a[j].key == "category" || a[j].key == "programId" || a[j].key == "image"
  }

  lemma HeadOnce(a: seq<Field>, n: nat, j: nat)
    requires Headed(a) && n < 5 && n < j < |a|
    ensures a[j].key != a[n].key
  {
    KeyLengths();
    assert "name"[0] == 'n' && "type"[0] == 't' && "criteria"[1] == 'r' && "category"[1] == 'a';
  }

  lemma HeadText(a: seq<Field>, n: nat, key: string, s: string)
    requires Headed(a) && n < 5 && a[n] == Text(key, s)
    ensures V.StringField(DenoteFields(a), key) == s
  {
    forall j | n < j < |a| ensures a[j].key != key {
      HeadOnce(a, n, j);
    }
    TextAt(a, n, key, s);
  }

  lemma HeadObject(a: seq<Field>, n: nat, key: string, inner: seq<Field>)
    requires Headed(a) && n < 5 && a[n] == Field(key, Ordered(inner))
    ensures V.ObjectField(DenoteFields(a), key) == DenoteFields(inner)
  {
    forall j | n < j < |a| ensures a[j].key != key {
      HeadOnce(a, n, j);
    }
    ObjectAt(a, n, key, inner);
  }

  lemma AchievementHeaded(p: Params, id: string)
    ensures Headed(Achievement(p, id)) && Achievement(p, id)[..5] == AchievementHead(p, id)
  {
    var a := Achievement(p, id);
    var more := Optional(p.programCategory != "", Text("category", p.programCategory)) + Optional(p.programID != "", Text("programId", p.programID)) + [Image(p)];
    assert a == AchievementHead(p, id) + more;
    assert forall j :: 0 <= j < |more| ==> more[j].key == "category" || more[j].key == "programId" || more[j].key == "image";
  }

  lemma AchievementFixed(p: Params, id: string)
    ensures var a := DenoteFields(Achievement(p, id));
      V.StringField(a, "name") == p.achievementName && V.StringField(a, "description") == p.achievementDesc
      && V.StringField(V.ObjectField(a, "criteria"), "narrative") == p.criteria
      && V.StringField(a, "id") == id
  {
    AchievementHeaded(p, id);
    HeadRead(Achievement(p, id), p, id);
  }

  lemma HeadRead(a: seq<Field>, p: Params, id: string)
    requires Headed(a) && a[..5] == AchievementHead(p, id)
    ensures var d := DenoteFields(a);
      V.StringField(d, "name") == p.achievementName && V.StringField(d, "description") == p.achievementDesc
      && V.StringField(V.ObjectField(d, "criteria"), "narrative") == p.criteria
      && V.StringField(d, "id") == id
  {
    var narrative := [Text("narrative", p.criteria)];
    assert a[0] == a[..5][0] && a[2] == a[..5][2] && a[3] == a[..5][3] && a[4] == a[..5][4];
    HeadText(a, 0, "id", id);
    HeadText(a, 2, "name", p.achievementName);
    HeadText(a, 3, "description", p.achievementDesc);
    HeadObject(a, 4, "criteria", narrative);
    TextAt(narrative, 0, "narrative", p.criteria);
  }

  lemma AchievementOptional(p: Params, id: string)
    ensures V.StringField(DenoteFields(Achievement(p, id)), "category") == p.programCategory
    ensures V.StringField(DenoteFields(Achievement(p, id)), "programId") == p.programID
  {
    var head, category, program := AchievementHead(p, id), Optional(p.programCategory != "", Text("category", p.programCategory)),
      Optional(p.programID != "", Text("programId", p.programID));
    var a, image := Achievement(p, id), [Image(p)];
    KeyLengths();
    assert "criteria"[1] == 'r' && "category"[1] == 'a';
    assert a == head + category + (program + image);
    OptionalText(a, head, "category", p.programCategory, program + image);
    assert a == (head + category) + program + image;
    OptionalText(a, head + category, "programId", p.programID, image);
  }

  function SubjectHead(p: Params): seq<Field> {
    Optional(p.recipientDID != "", Text("id", p.recipientDID))
    + [Field("type", Texts(["AchievementSubject"])), Text("name", p.recipientName)]
  }

  lemma SubjectOptional(p: Params, id: string)
    ensures V.StringField(V.ObjectField(DenoteFields(Subject(p, id)), "source"), "code") == p.universityCode
    ensures V.StringField(V.ObjectField(DenoteFields(Subject(p, id)), "identifier"), "identityValue") == p.studentID
  {
    var head := SubjectHead(p);
    var student := [Text("type", "StudentId"), Text("identityValue", p.studentID)];
    var code := [Text("code", p.universityCode)];
    var identifier := Optional(p.studentID != "", Field("identifier", Ordered(student)));
    var source := Optional(p.universityCode != "", Field("source", Ordered(code)));
    var tail := [Field("achievement", Ordered(Achievement(p, id)))];
    KeyLengths();
    OptionalInner(head, "identifier", student, 1, "identityValue", p.studentID, source + tail);
    assert Subject(p, id) == head + identifier + (source + tail);
    OptionalInner(head + identifier, "source", code, 0, "code", p.universityCode, tail);
    assert Subject(p, id) == (head + identifier) + source + tail;
  }

  lemma SubjectAchievement(p: Params, id: string)
    ensures V.ObjectField(DenoteFields(Subject(p, id)), "achievement") == DenoteFields(Achievement(p, id))
  {
    ObjectAt(Subject(p, id), |Subject(p, id)| - 1, "achievement", Achievement(p, id));
  }

  lemma SubjectRead(suite: Suite, clock: Clock, i: Issue)
    ensures SubjectOf(Meaning(suite, clock, i)) == DenoteFields(Subject(i.p, AchievementId(i.p, i.uuids)))
    ensures AchievementOf(Meaning(suite, clock, i)) == DenoteFields(Achievement(i.p, AchievementId(i.p, i.uuids)))
  {
    BodyRead(clock, i);
    SubjectIn(DenoteFields(BodyOf(clock, i)), Plain(DenoteFields(ProofOf(suite, clock, i))), i.p, AchievementId(i.p, i.uuids));
  }

  lemma SubjectIn(body: V.Object, proof: Value, p: Params, id: string)
    requires "credentialSubject" in body && body["credentialSubject"] == Denote(Ordered(Subject(p, id)))
    ensures SubjectOf(body + map["proof" := proof]) == DenoteFields(Subject(p, id))
    ensures AchievementOf(body + map["proof" := proof]) == DenoteFields(Achievement(p, id))
  {
    SubjectAchievement(p, id);
  }

  /** The extractors recover the builder's parameters from every issued credential, whichever of
      the optional ones are empty. */
  lemma ExtractorsInvert(suite: Suite, clock: Clock, i: Issue)
    ensures ExtractAchievementInfo(Meaning(suite, clock, i)) ==
      AchievementInfo(i.p.achievementName, i.p.achievementDesc, i.p.criteria, i.p.programCategory, i.p.programID)
    ensures ExtractCPSIdentity(Meaning(suite, clock, i)) == Identity(i.p.universityCode, i.p.studentID)
  {
    var id := AchievementId(i.p, i.uuids);
    SubjectRead(suite, clock, i);
    AchievementFixed(i.p, id);
    AchievementOptional(i.p, id);
    SubjectOptional(i.p, id);
  }

  // ----- the two operations

  datatype ReissueError = MissingId | LookupFailed | NotFound | BadBody | NoImage | BadStoredJson | NoSequence | NotBuilt(why: BuildError)

  function IssueOf(s: Server, q: Request, secret: SecretKey, d: Draw): Issue
    requires Positive(d) && d.sequence.Some?
  {
    Issue(secret, d.signer.keyId, IssueParams(s.config, q, NewId(q.universityCode, q.programCategory, d)), d.uuids, d.now)
  }

  ghost function TextOf(s: Server, i: Issue): string {
    Print(Plain(Issued(s.suite, s.clock, i)), GO)
  }

  ghost function SignatureOf(s: Server, i: Issue): string {
    SignatureMultibase(s.suite.sign(i.secret, Message(s.suite, BodyOf(s.clock, i))))
  }

  /** The row saved for an issued credential. */
  ghost function RowOf(s: Server, link: Option<string>, i: Issue): Row {
    Row(link, i.p.recipientName, i.p.recipientEmail, i.p.recipientDID, i.p.credentialID,
      TextOf(s, i), SignatureOf(s, i), s.suite.digest(TextOf(s, i)),
      i.p.universityCode, i.p.programID, i.p.studentID)
  }

  /** json.Unmarshal into a map: an object, or null for the nil map. */
  function Stored(text: string): Option<V.Object> {
    match Parse(text)
    case Ok(Plain(m)) => Some(m)
    case Ok(Null) => Some(map[])
    case _ => None
  }

  /** The linked achievement, or "". */
  function Linked(row: Row): string {
    match row.achievementId case Some(id) => id case None => ""
  }

  function ReissueParams(c: Config, row: Row, m: V.Object, image: string, id: string): Params {
    var info, who := ExtractAchievementInfo(m), ExtractCPSIdentity(m);
    Params(c.issuerDID, c.issuerName, c.serverURL, c.contractAddress,
      id, Linked(row), info.name, info.desc, info.criteria, image,
      who.universityCode, info.programId, info.category, who.studentId,
      row.recipientName, row.recipientEmail,
      if row.recipientDID != "" then row.recipientDID
      else UserDID(c.issuerDID, if who.studentId != "" then who.studentId else id))
  }

  function ReissueOf(c: Config, row: Row, m: V.Object, image: string, secret: SecretKey, d: Draw): Issue
    requires Positive(d) && d.sequence.Some?
  {
    var id := NewId(ExtractCPSIdentity(m).universityCode, ExtractAchievementInfo(m).category, d);
    Issue(secret, d.signer.keyId, ReissueParams(c, row, m, image, id), d.uuids, d.now)
  }

  lemma OneFieldConverts(f: Field)
    ensures ToMap([] + [f]) == map[f.key := Converted(f.value)]
  {
    assert ([] + [f])[1..] == [];
  }

  lemma {:induction false} ToMapAppended(fields: seq<Field>, f: Field)
    ensures ToMap(fields + [f]) == ToMap(fields) + map[f.key := Converted(f.value)]
  {
    if fields == [] {
      OneFieldConverts(f);
    } else {
      AppendedAfterFirst(fields, f);
      ToMapAppended(fields[1..], f);
      MergeAssociates(map[fields[0].key := Converted(fields[0].value)], ToMap(fields[1..]), map[f.key := Converted(f.value)]);
    }
  }

  lemma ProofMapRead(keyId: string, created: string, proofValue: string)
    ensures V.StringField(ToMap(Credential.Proof(keyId, created, proofValue)), "proofValue") == proofValue
  {
    var proof := Credential.Proof(keyId, created, proofValue);
    ToMapAppended(proof[..5], proof[5]);
    assert proof == proof[..5] + [proof[5]];
  }

  lemma SealedProof(body: seq<Field>, proof: seq<Field>)
    ensures V.ObjectField(ToMap(body + [Field("proof", Ordered(proof))]), "proof") == ToMap(proof)
  {
    ToMapAppended(body, Field("proof", Ordered(proof)));
  }

  /** The proof value read from the returned map is the signature. */
  lemma ProofValueRead(s: Server, i: Issue)
    ensures V.StringField(V.ObjectField(Issued(s.suite, s.clock, i), "proof"), "proofValue") == SignatureOf(s, i)
  {
    SealedProof(BodyOf(s.clock, i), ProofOf(s.suite, s.clock, i));
    ProofMapRead(i.keyId, s.clock.format(i.t), SignatureOf(s, i));
  }

  /** The credential and the row of a built issue. */
  method Build(s: Server, d: Draw, p: Params, link: Option<string>) returns (r: Result<(V.Object, Row), ReissueError>)
    ensures r == match d.signer.secret
      case None => Err(NotBuilt(SigningFailed))
      case Some(secret) =>
        var i := Issue(secret, d.signer.keyId, p, d.uuids, d.now);
        Ok((Issued(s.suite, s.clock, i), RowOf(s, link, i)))
  {
    var built := BuildCredential(s.suite, d.signer, s.clock, d.now, d.uuids, p);
    match built
    case Err(why) => return Err(NotBuilt(why));
    case Ok(credential) =>
      ghost var i := Issue(d.signer.secret.value, d.signer.keyId, p, d.uuids, d.now);
      ProofValueRead(s, i);
      var text := Marshal(Plain(credential));
      var proofValue := V.StringField(V.ObjectField(credential, "proof"), "proofValue");
      return Ok((credential, Row(link, p.recipientName, p.recipientEmail, p.recipientDID, p.credentialID,
        text, proofValue, s.suite.digest(text), p.universityCode, p.programID, p.studentID)));
  }

  method IssueBadge(s: Server, q: Request, d: Draw) returns (r: Result<(V.Object, Row), ReissueError>)
    requires Positive(d)
    ensures r == match (d.sequence, d.signer.secret)
      case (None, _) => Err(NoSequence)
      case (_, None) => Err(NotBuilt(SigningFailed))
      case (Some(_), Some(secret)) =>
        var i := IssueOf(s, q, secret, d);
        Ok((Issued(s.suite, s.clock, i), RowOf(s, LinkOf(s, q.achievementID), i)))
  {
    if d.sequence.None? {
      return Err(NoSequence);
    }
    var id := FormatId(q.universityCode, q.programCategory, d.year, d.sequence.value);
    r := Build(s, d, IssueParams(s.config, q, id), LinkOf(s, q.achievementID));
  }

  method ReissueBadge(s: Server, credentialId: string, lookup: Result<Option<Row>, ()>, body: Option<string>, d: Draw)
    returns (r: Result<(V.Object, Row), ReissueError>)
    requires Positive(d)
    ensures r == if credentialId == "" then Err(MissingId)
      else if lookup.Err? then Err(LookupFailed)
      else if lookup.value.None? then Err(NotFound)
      else if body.None? then Err(BadBody)
      else if body.value == "" then Err(NoImage)
      else
        var row := lookup.value.value;
        match (Stored(row.credentialJSON), d.sequence, d.signer.secret)
        case (None, _, _) => Err(BadStoredJson)
        case (_, None, _) => Err(NoSequence)
        case (_, _, None) => Err(NotBuilt(SigningFailed))
        case (Some(m), Some(_), Some(secret)) =>
          var i := ReissueOf(s.config, row, m, body.value, secret, d);
          Ok((Issued(s.suite, s.clock, i), RowOf(s, row.achievementId, i)))
  {
    if credentialId == "" {
      return Err(MissingId);
    }
    if lookup.Err? {
      return Err(LookupFailed);
    }
    if lookup.value.None? {
      return Err(NotFound);
    }
    var row := lookup.value.value;
    if body.None? {
      return Err(BadBody);
    }
    if body.value == "" {
      return Err(NoImage);
    }
    var existing := Stored(row.credentialJSON);
    if existing.None? {
      return Err(BadStoredJson);
    }
    var info, who := ExtractAchievementInfo(existing.value), ExtractCPSIdentity(existing.value);
    if d.sequence.None? {
      return Err(NoSequence);
    }
    var id := FormatId(who.universityCode, info.category, d.year, d.sequence.value);
    r := Build(s, d, ReissueParams(s.config, row, existing.value, body.value, id), row.achievementId);
  }

  // ----- what a reissue changes and what it does not

  predicate FromConfig(c: Config, p: Params) {
    p.issuerDID == c.issuerDID && p.issuerName == c.issuerName && p.serverURL == c.serverURL && p.contractAddress == c.contractAddress
  }

  predicate SameButImage(p: Params, q: Params) {
    q == p.(credentialID := q.credentialID, imageBase64 := q.imageBase64, achievementID := q.achievementID)
  }

  // ----- what the reader of a reissued credential sees

  function AchievementSkeleton(a: V.Object): V.Object { a - {"id", "image"} }

  function SubjectSkeleton(subject: V.Object): V.Object {
    subject["achievement" := Plain(AchievementSkeleton(V.ObjectField(subject, "achievement")))]
  }

  /** A credential without its identifier, its time, its proof and its achievement's identifier
      and image. */
  function Skeleton(m: V.Object): V.Object {
    (m - {"id", "validFrom", "proof"})["credentialSubject" := Plain(SubjectSkeleton(SubjectOf(m)))]
  }

  lemma {:induction false} FieldReplaced(fields: seq<Field>, n: nat, v: Value)
    requires n < |fields|
    ensures DenoteFields(fields[n := Field(fields[n].key, v)]) - {fields[n].key} == DenoteFields(fields) - {fields[n].key}
  {
    var next := fields[n := Field(fields[n].key, v)];
    if n == 0 {
      assert next[1..] == fields[1..];
    } else {
      assert next[1..] == fields[1..][n - 1 := Field(fields[n].key, v)];
      FieldReplaced(fields[1..], n - 1, v);
      MinusMerge(map[fields[0].key := Denote(fields[0].value)], DenoteFields(fields[1..]), DenoteFields(next[1..]), fields[n].key);
    }
  }

  lemma MinusMerge(head: V.Object, a: V.Object, b: V.Object, key: string)
    requires a - {key} == b - {key}
    ensures (head + a) - {key} == (head + b) - {key}
  {
    forall k | k != key
      ensures k in a <==> k in b
      ensures k in a ==> a[k] == b[k]
    {
      assert k in a <==> k in a - {key};
      assert k in b <==> k in b - {key};
      assert k in a ==> (a - {key})[k] == a[k];
      assert k in b ==> (b - {key})[k] == b[k];
    }
  }

  lemma AchievementSame(p: Params, id: string, q: Params, id': string)
    requires SameButImage(p, q)
    ensures AchievementSkeleton(DenoteFields(Achievement(p, id))) == AchievementSkeleton(DenoteFields(Achievement(q, id')))
  {
    var a, b := Achievement(p, id), Achievement(q, id');
    var n := |a| - 1;
    var mid := a[0 := b[0]];
    FieldReplaced(a, 0, b[0].value);
    FieldReplaced(mid, n, b[n].value);
    assert b == mid[n := b[n]];
    Drop2(DenoteFields(a), DenoteFields(mid), DenoteFields(b), "id", "image");
  }

  lemma Drop2(a: V.Object, b: V.Object, c: V.Object, x: string, y: string)
    requires a - {x} == b - {x} && b - {y} == c - {y}
    ensures a - {x, y} == c - {x, y}
  {
    assert a - {x, y} == (a - {x}) - {y};
    assert b - {x, y} == (b - {x}) - {y};
    assert b - {x, y} == (b - {y}) - {x};
    assert c - {x, y} == (c - {y}) - {x};
  }

  lemma SubjectSame(p: Params, id: string, q: Params, id': string)
    requires SameButImage(p, q)
    ensures SubjectSkeleton(DenoteFields(Subject(p, id))) == SubjectSkeleton(DenoteFields(Subject(q, id')))
  {
    SubjectAchievement(p, id);
    SubjectAchievement(q, id');
    AchievementSame(p, id, q, id');
    SubjectSplit(p, id);
    SubjectSplit(q, id');
    var init, achievement := DenoteFields(SubjectInit(p)), Plain(AchievementSkeleton(DenoteFields(Achievement(p, id))));
    assert SubjectInit(p) == SubjectInit(q);
    SetTwice(init, "achievement", Plain(DenoteFields(Achievement(p, id))), achievement);
    SetTwice(init, "achievement", Plain(DenoteFields(Achievement(q, id'))), achievement);
  }

  /** The subject without its achievement. */
  function SubjectInit(p: Params): seq<Field> {
    var s := Subject(p, "");
    s[..|s| - 1]
  }

  lemma SubjectSplit(p: Params, id: string)
    ensures DenoteFields(Subject(p, id)) == DenoteFields(SubjectInit(p)) + map["achievement" := Plain(DenoteFields(Achievement(p, id)))]
  {
    var achievement := Field("achievement", Ordered(Achievement(p, id)));
    assert Subject(p, id) == SubjectInit(p) + [achievement];
    FieldAppended(SubjectInit(p), achievement);
  }

  lemma SetTwice(m: V.Object, key: string, v: Value, w: Value)
    ensures (m + map[key := v])[key := w] == m[key := w]
  {
  }

  lemma BodySame(clock: Clock, i: Issue, j: Issue)
    requires SameButImage(i.p, j.p)
    ensures DenoteFields(BodyOf(clock, i)) - {"id", "validFrom", "credentialSubject"}
      == DenoteFields(BodyOf(clock, j)) - {"id", "validFrom", "credentialSubject"}
  {
    var a, d := BodyOf(clock, i), BodyOf(clock, j);
    BodyKeys(clock, i);
    BodyKeys(clock, j);
    var b := a[2 := d[2]];
    var c := b[4 := d[4]];
    ReplaceAll(a, b, c, d);
  }

  lemma ReplaceAll(a: seq<Field>, b: seq<Field>, c: seq<Field>, d: seq<Field>)
    requires |a| == |d| == 7 && b == a[2 := d[2]] && c == b[4 := d[4]] && d == c[5 := d[5]]
    requires a[2].key == d[2].key == "id" && a[4].key == d[4].key == "validFrom" && a[5].key == d[5].key == "credentialSubject"
    ensures DenoteFields(a) - {"id", "validFrom", "credentialSubject"} == DenoteFields(d) - {"id", "validFrom", "credentialSubject"}
  {
    FieldReplaced(a, 2, d[2].value);
    FieldReplaced(b, 4, d[4].value);
    FieldReplaced(c, 5, d[5].value);
    Drop2(DenoteFields(a), DenoteFields(b), DenoteFields(c), "id", "validFrom");
    Drop3(DenoteFields(a), DenoteFields(c), DenoteFields(d), "id", "validFrom", "credentialSubject");
  }

  lemma Drop3(a: V.Object, b: V.Object, c: V.Object, x: string, y: string, z: string)
    requires a - {x, y} == b - {x, y} && b - {z} == c - {z}
    ensures a - {x, y, z} == c - {x, y, z}
  {
    assert a - {x, y, z} == (a - {x, y}) - {z};
    assert b - {x, y, z} == (b - {x, y}) - {z};
    assert b - {x, y, z} == (b - {z}) - {x, y};
    assert c - {x, y, z} == (c - {z}) - {x, y};
  }

  /** Credentials built from parameters that differ only in the identifiers and the image look the
      same but for those, the time and the proof. */
  lemma SkeletonSame(suite: Suite, clock: Clock, i: Issue, j: Issue)
    requires SameButImage(i.p, j.p)
    ensures Skeleton(Meaning(suite, clock, i)) == Skeleton(Meaning(suite, clock, j))
  {
    BodySame(clock, i, j);
    SubjectRead(suite, clock, i);
    SubjectRead(suite, clock, j);
    SubjectSame(i.p, AchievementId(i.p, i.uuids), j.p, AchievementId(j.p, j.uuids));
    SkeletonShape(DenoteFields(BodyOf(clock, i)), Meaning(suite, clock, i), Plain(DenoteFields(ProofOf(suite, clock, i))));
    SkeletonShape(DenoteFields(BodyOf(clock, j)), Meaning(suite, clock, j), Plain(DenoteFields(ProofOf(suite, clock, j))));
  }

  lemma SkeletonShape(body: V.Object, m: V.Object, proof: Value)
    requires m == body + map["proof" := proof]
    ensures Skeleton(m) == ((body - {"id", "validFrom", "credentialSubject"}) - {"proof"})["credentialSubject" := Plain(SubjectSkeleton(SubjectOf(m)))]
  {
  }

  // ----- the achievement identifier

  function AchievementIdOf(m: V.Object): string { V.StringField(AchievementOf(m), "id") }

  lemma AchievementIdRead(suite: Suite, clock: Clock, i: Issue)
    ensures AchievementIdOf(Meaning(suite, clock, i)) == AchievementId(i.p, i.uuids)
  {
    SubjectRead(suite, clock, i);
    AchievementFixed(i.p, AchievementId(i.p, i.uuids));
  }
}
