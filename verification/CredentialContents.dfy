/** What a reader of an issued credential finds in it, key by key (Open Badges 3.0; Data Integrity). */
module CredentialContents {
  import opened Json
  import opened CredentialIds
  import opened Multibase
  import opened Crypto
  import opened Credential
  import opened IssuedCredential
  import opened Reissue
  import V = Verifier

  // ----- the keys of an object, and one of its values

  function KeysOf(fields: seq<Field>): set<string> { set f | f in fields :: f.key }

  lemma {:induction false} KeysAre(fields: seq<Field>)
    ensures DenoteFields(fields).Keys == KeysOf(fields)
  {
    if fields != [] {
      KeysAre(fields[1..]);
      assert fields == [fields[0]] + fields[1..];
    }
  }

  lemma Single(f: Field)
    ensures DenoteFields([f]) == map[f.key := Denote(f.value)]
  {
    OneFieldMeans(f);
    assert [] + [f] == [f];
  }

  lemma Two(f: Field, g: Field)
    requires f.key != g.key
    ensures DenoteFields([f, g]) == map[f.key := Denote(f.value), g.key := Denote(g.value)]
  {
    Single(f);
    FieldAppended([f], g);
    assert [f] + [g] == [f, g];
  }

  lemma Three(f: Field, g: Field, h: Field)
    requires f.key != g.key && f.key != h.key && g.key != h.key
    ensures DenoteFields([f, g, h]) == map[f.key := Denote(f.value), g.key := Denote(g.value), h.key := Denote(h.value)]
  {
    Two(f, g);
    FieldAppended([f, g], h);
    assert [f, g] + [h] == [f, g, h];
  }

  /** A key that only an optional field can have is there exactly if the field is. */
  lemma OptionalThere(fields: seq<Field>, before: seq<Field>, present: bool, f: Field, after: seq<Field>)
    requires fields == before + Optional(present, f) + after
    requires forall j :: 0 <= j < |before| ==> before[j].key != f.key
    requires forall j :: 0 <= j < |after| ==> after[j].key != f.key
    ensures f.key in DenoteFields(fields) <==> present
    ensures present ==> DenoteFields(fields)[f.key] == Denote(f.value)
  {
    if present {
      assert fields[|before|] == f;
      assert forall j :: |before| < j < |fields| ==> fields[j] == after[j - |before| - 1];
      FieldFound(fields, |before|);
    } else {
      assert fields == before + after;
      FieldAbsent(fields, f.key);
    }
  }

  lemma OneText(s: string)
    ensures Denote(Texts([s])) == Array([String(s)])
  {
    var items := [String(s)];
    assert Texts([s]).items == items;
    assert items[1..] == [];
    assert DenoteItems(items) == [String(s)] + DenoteItems(items[1..]);
  }

  lemma TwoTexts(s: string, t: string)
    ensures Denote(Texts([s, t])) == Array([String(s), String(t)])
  {
    var items := [String(s), String(t)];
    assert Texts([s, t]).items == items;
    assert items[1..] == [String(t)] && items[1..][1..] == [];
    assert DenoteItems(items[1..]) == [String(t)] + DenoteItems(items[1..][1..]);
    assert DenoteItems(items) == [String(s)] + DenoteItems(items[1..]);
  }

  // ----- the credential

  /** Its keys. */
  lemma TopKeys(suite: Suite, clock: Clock, i: Issue)
    ensures Meaning(suite, clock, i).Keys ==
      {"@context", "type", "id", "issuer", "validFrom", "credentialSubject", "didFallback"} + {"proof"}
  {
    BodyKeys(clock, i);
    SevenKeySet(BodyOf(clock, i));
    KeysBeside(DenoteFields(BodyOf(clock, i)), Plain(DenoteFields(ProofOf(suite, clock, i))),
      {"@context", "type", "id", "issuer", "validFrom", "credentialSubject", "didFallback"});
  }

  lemma KeysBeside(body: V.Object, proof: Value, keys: set<string>)
    requires body.Keys == keys
    ensures (body + map["proof" := proof]).Keys == keys + {"proof"}
  {
  }

  /** The values under them. */
  lemma TopLevel(suite: Suite, clock: Clock, i: Issue)
    ensures var m := Meaning(suite, clock, i);
      && "@context" in m && m["@context"] == Array([String("https://www.w3.org/ns/credentials/v2"),
           String("https://purl.imsglobal.org/spec/ob/v3p0/context-3.0.3.json")])
      && "type" in m && m["type"] == Array([String("VerifiableCredential"), String("OpenBadgeCredential")])
      && "id" in m && m["id"] == String(CredentialURL(i.p.serverURL, CredentialId(i.p, i.uuids)))
      && "validFrom" in m && m["validFrom"] == String(clock.format(i.t))
      && "issuer" in m && m["issuer"] == Denote(Issuer(i.p)) && "didFallback" in m && m["didFallback"] == Denote(DidFallback(i.p))
      && "credentialSubject" in m && m["credentialSubject"] == Denote(Ordered(Subject(i.p, AchievementId(i.p, i.uuids))))
      && "proof" in m && m["proof"] == Plain(DenoteFields(ProofOf(suite, clock, i)))
  {
    FixedValues(clock, i);
    BodyRead(clock, i);
    BesideProof(DenoteFields(BodyOf(clock, i)), Plain(DenoteFields(ProofOf(suite, clock, i))));
  }

  lemma FixedValues(clock: Clock, i: Issue)
    ensures var d := DenoteFields(BodyOf(clock, i));
      && "@context" in d && d["@context"] == Array([String(CREDENTIALS_CONTEXT), String(BADGES_CONTEXT)])
      && "type" in d && d["type"] == Array([String("VerifiableCredential"), String("OpenBadgeCredential")])
  {
    var b := BodyOf(clock, i);
    BodyKeys(clock, i);
    SevenKeys(b, 0);
    SevenKeys(b, 1);
    FirstValues(clock, i);
    TwoTexts(CREDENTIALS_CONTEXT, BADGES_CONTEXT);
    TwoTexts("VerifiableCredential", "OpenBadgeCredential");
  }

  lemma BesideProof(body: V.Object, proof: Value)
    requires "proof" !in body
    ensures (body + map["proof" := proof]).Keys == body.Keys + {"proof"}
    ensures forall k :: k in body ==> (body + map["proof" := proof])[k] == body[k]
  {
  }

  lemma FirstValues(clock: Clock, i: Issue)
    ensures BodyOf(clock, i)[0].value == Texts([CREDENTIALS_CONTEXT, BADGES_CONTEXT])
    ensures BodyOf(clock, i)[1].value == Texts(["VerifiableCredential", "OpenBadgeCredential"])
  {
  }

  lemma KeysOfSeven(b: seq<Field>)
    requires |b| == 7
    ensures KeysOf(b) == {b[0].key, b[1].key, b[2].key, b[3].key, b[4].key, b[5].key, b[6].key}
  {
  }

  lemma KeysOfSix(b: seq<Field>)
    requires |b| == 6
    ensures KeysOf(b) == {b[0].key, b[1].key, b[2].key, b[3].key, b[4].key, b[5].key}
  {
  }

  lemma SevenKeySet(b: seq<Field>)
    requires |b| == 7 && b[0].key == "@context" && b[1].key == "type" && b[2].key == "id" && b[3].key == "issuer"
    requires b[4].key == "validFrom" && b[5].key == "credentialSubject" && b[6].key == "didFallback"
    ensures DenoteFields(b).Keys == {"@context", "type", "id", "issuer", "validFrom", "credentialSubject", "didFallback"}
  {
    KeysAre(b);
    KeysOfSeven(b);
  }

  lemma IssuerContents(p: Params)
    ensures Denote(Issuer(p)) ==
      Plain(map["id" := String(p.issuerDID), "type" := Array([String("Profile")]), "name" := String(p.issuerName)])
  {
    assert "type"[0] == 't' && "name"[0] == 'n';
    Three(Text("id", p.issuerDID), Field("type", Texts(["Profile"])), Text("name", p.issuerName));
    OneText("Profile");
  }

  lemma FallbackContents(p: Params)
    ensures Denote(DidFallback(p)) ==
      Plain(map["type" := String("PolygonSmartContract"), "contractAddress" := String(p.contractAddress),
        "description" := String("Fallback: query this Polygon contract for the issuer public key if did:web resolution fails.")])
  {
    assert |"type"| == 4 && |"contractAddress"| == 15 && |"description"| == 11;
    Three(Text("type", "PolygonSmartContract"), Text("contractAddress", p.contractAddress), Text("description", FALLBACK_DESCRIPTION));
  }

  /** The proof: a Data Integrity proof for assertions, made when the credential was. */
  lemma ProofContents(suite: Suite, clock: Clock, i: Issue)
    ensures var d := DenoteFields(ProofOf(suite, clock, i));
      && d.Keys == {"type", "cryptosuite", "verificationMethod", "proofPurpose", "created", "proofValue"}
      && d["type"] == String("DataIntegrityProof") && d["cryptosuite"] == String("eddsa-rdfc-2022")
      && d["verificationMethod"] == String(i.keyId) && d["proofPurpose"] == String("assertionMethod")
      && d["created"] == String(clock.format(i.t))
      && d["proofValue"] == String(SignatureMultibase(suite.sign(i.secret, Message(suite, BodyOf(clock, i)))))
  {
    var fields := ProofOf(suite, clock, i);
    ProofFields(fields, i.keyId, clock.format(i.t), SignatureMultibase(suite.sign(i.secret, Message(suite, BodyOf(clock, i)))));
  }

  lemma ProofFields(fields: seq<Field>, keyId: string, created: string, proofValue: string)
    requires fields == Credential.Proof(keyId, created, proofValue)
    ensures var d := DenoteFields(fields);
      && d.Keys == {"type", "cryptosuite", "verificationMethod", "proofPurpose", "created", "proofValue"}
      && d["type"] == String("DataIntegrityProof") && d["cryptosuite"] == String("eddsa-rdfc-2022")
      && d["verificationMethod"] == String(keyId) && d["proofPurpose"] == String("assertionMethod")
      && d["created"] == String(created) && d["proofValue"] == String(proofValue)
  {
    KeysAre(fields);
    KeysOfSix(fields);
    SixAt(fields, 0);
    SixAt(fields, 1);
    SixAt(fields, 2);
    SixAt(fields, 3);
    SixAt(fields, 4);
    SixAt(fields, 5);
  }

  lemma SixAt(fields: seq<Field>, n: nat)
    requires |fields| == 6 && fields[0].key == "type" && fields[1].key == "cryptosuite" && fields[2].key == "verificationMethod"
    requires fields[3].key == "proofPurpose" && fields[4].key == "created" && fields[5].key == "proofValue" && n < 6
    ensures fields[n].key in DenoteFields(fields) && DenoteFields(fields)[fields[n].key] == Denote(fields[n].value)
  {
    assert |fields[0].key| == 4 && |fields[1].key| == 11 && |fields[2].key| == 18;
    assert |fields[3].key| == 12 && |fields[4].key| == 7 && |fields[5].key| == 10;
    FieldFound(fields, n);
  }

  // ----- the subject

  lemma SubjectKeyLengths()
    ensures |"id"| == 2 && |"type"| == 4 && |"name"| == 4 && |"identifier"| == 10 && |"source"| == 6 && |"achievement"| == 11
    ensures "type"[0] == 't' && "name"[0] == 'n'
  {
  }

  /** The recipient is always named; the identifier, student number and university are there exactly
      if they were given. */
  lemma SubjectContents(p: Params, id: string)
    ensures var d := DenoteFields(Subject(p, id));
      && ("id" in d <==> p.recipientDID != "") && (p.recipientDID != "" ==> d["id"] == String(p.recipientDID))
      && "type" in d && d["type"] == Array([String("AchievementSubject")])
      && "name" in d && d["name"] == String(p.recipientName)
      && ("identifier" in d <==> p.studentID != "") && ("source" in d <==> p.universityCode != "")
      && "achievement" in d && d["achievement"] == Plain(DenoteFields(Achievement(p, id)))
  {
    var did := Optional(p.recipientDID != "", Text("id", p.recipientDID));
    var named := [Field("type", Texts(["AchievementSubject"])), Text("name", p.recipientName)];
    var student := Field("identifier", Ordered([Text("type", "StudentId"), Text("identityValue", p.studentID)]));
    var code := Field("source", Ordered([Text("code", p.universityCode)]));
    var last := Field("achievement", Ordered(Achievement(p, id)));
    SubjectParts(Subject(p, id), p.recipientDID != "", Text("id", p.recipientDID), named[0], named[1], p.studentID != "", student,
      p.universityCode != "", code, last);
    OneText("AchievementSubject");
  }

  lemma SubjectParts(fields: seq<Field>, hasId: bool, id: Field, kind: Field, name: Field, hasStudent: bool, student: Field,
                     hasCode: bool, code: Field, last: Field)
    requires fields == Optional(hasId, id) + [kind, name] + Optional(hasStudent, student) + Optional(hasCode, code) + [last]
    requires id.key == "id" && kind.key == "type" && name.key == "name"
    requires student.key == "identifier" && code.key == "source" && last.key == "achievement"
    ensures var d := DenoteFields(fields);
      && ("id" in d <==> hasId) && (hasId ==> d["id"] == Denote(id.value))
      && "type" in d && d["type"] == Denote(kind.value) && "name" in d && d["name"] == Denote(name.value)
      && ("identifier" in d <==> hasStudent) && (hasStudent ==> d["identifier"] == Denote(student.value))
      && ("source" in d <==> hasCode) && (hasCode ==> d["source"] == Denote(code.value))
      && "achievement" in d && d["achievement"] == Denote(last.value)
  {
    var a, s, c := Optional(hasId, id), Optional(hasStudent, student), Optional(hasCode, code);
    Regroup(a, kind, name, s, c, last);
    FirstParts(fields, hasId, id, kind, name, s + c + [last]);
    LastParts(fields, a + [kind, name], hasStudent, student, hasCode, code, last);
  }

  lemma Regroup(a: seq<Field>, kind: Field, name: Field, s: seq<Field>, c: seq<Field>, last: Field)
    ensures a + [kind, name] + s + c + [last] == a + ([kind, name] + (s + c + [last]))
    ensures a + [kind, name] + s + c + [last] == (a + [kind, name]) + s + c + [last]
  {
  }

  lemma FirstParts(fields: seq<Field>, hasId: bool, id: Field, kind: Field, name: Field, more: seq<Field>)
    requires fields == Optional(hasId, id) + ([kind, name] + more)
    requires id.key == "id" && kind.key == "type" && name.key == "name"
    requires forall j :: 0 <= j < |more| ==> more[j].key != "id" && more[j].key != "type" && more[j].key != "name"
    ensures var d := DenoteFields(fields);
      && ("id" in d <==> hasId) && (hasId ==> d["id"] == Denote(id.value))
      && "type" in d && d["type"] == Denote(kind.value) && "name" in d && d["name"] == Denote(name.value)
  {
    var a := Optional(hasId, id);
    SubjectKeyLengths();
    assert fields == [] + a + ([kind, name] + more);
    OptionalThere(fields, [], hasId, id, [kind, name] + more);
    assert fields == a + Optional(true, kind) + ([name] + more);
    OptionalThere(fields, a, true, kind, [name] + more);
    assert fields == (a + [kind]) + Optional(true, name) + more;
    OptionalThere(fields, a + [kind], true, name, more);
  }

  lemma LastParts(fields: seq<Field>, head: seq<Field>, hasStudent: bool, student: Field, hasCode: bool, code: Field, last: Field)
    requires fields == head + Optional(hasStudent, student) + Optional(hasCode, code) + [last]
    requires student.key == "identifier" && code.key == "source" && last.key == "achievement"
    requires forall j :: 0 <= j < |head| ==> head[j].key == "id" || head[j].key == "type" || head[j].key == "name"
    ensures var d := DenoteFields(fields);
      && ("identifier" in d <==> hasStudent) && (hasStudent ==> d["identifier"] == Denote(student.value))
      && ("source" in d <==> hasCode) && (hasCode ==> d["source"] == Denote(code.value))
      && "achievement" in d && d["achievement"] == Denote(last.value)
  {
    var s, c := Optional(hasStudent, student), Optional(hasCode, code);
    SubjectKeyLengths();
    assert fields == head + s + (c + [last]);
    OptionalThere(fields, head, hasStudent, student, c + [last]);
    assert fields == (head + s) + c + [last];
    OptionalThere(fields, head + s, hasCode, code, [last]);
    assert fields == (head + s + c) + Optional(true, last) + [];
    OptionalThere(fields, head + s + c, true, last, []);
  }

  /** What is under the optional keys of the subject. */
  lemma SubjectOptions(p: Params, id: string)
    ensures var d := DenoteFields(Subject(p, id));
      && (p.studentID != "" ==> "identifier" in d)
      && (p.studentID != "" ==> d["identifier"] == Plain(map["type" := String("StudentId"), "identityValue" := String(p.studentID)]))
      && (p.universityCode != "" ==> "source" in d && d["source"] == Plain(map["code" := String(p.universityCode)]))
  {
    var student := [Text("type", "StudentId"), Text("identityValue", p.studentID)];
    var code := [Text("code", p.universityCode)];
    SubjectParts(Subject(p, id), p.recipientDID != "", Text("id", p.recipientDID), Field("type", Texts(["AchievementSubject"])),
      Text("name", p.recipientName), p.studentID != "", Field("identifier", Ordered(student)),
      p.universityCode != "", Field("source", Ordered(code)), Field("achievement", Ordered(Achievement(p, id))));
    assert |"type"| == 4 && |"identityValue"| == 13;
    Two(student[0], student[1]);
    Single(code[0]);
  }

  // ----- the achievement and its image

  /** The image is a data URI: the given text if it is one, and otherwise the text as base64 of a PNG. */
  lemma ImageURI(img: string)
    ensures var r := EnsureImageDataURI(img);
      && |r| >= 11 && r[..11] == "data:image/"
      && (r == img <==> |img| >= 11 && img[..11] == "data:image/")
      && (r != img ==> r == "data:image/png;base64," + img)
      && EnsureImageDataURI(r) == r
  {
    assert "data:image/" <= img <==> |img| >= 11 && img[..11] == "data:image/";
    var png := "data:image/png;base64,";
    assert png[..11] == "data:image/" && |png| == 22;
    assert (png + img)[..11] == png[..11];
    assert |png + img| == 22 + |img|;
  }

  lemma AchievementContents(p: Params, id: string)
    ensures var d := DenoteFields(Achievement(p, id));
      && "type" in d && d["type"] == Array([String("Achievement")])
      && ("category" in d <==> p.programCategory != "") && ("programId" in d <==> p.programID != "")
      && "image" in d && d["image"] == Plain(map["id" := String(EnsureImageDataURI(p.imageBase64)), "type" := String("Image")])
      && "criteria" in d && d["criteria"] == Plain(map["narrative" := String(p.criteria)])
  {
    var a := Achievement(p, id);
    var category, program := Text("category", p.programCategory), Text("programId", p.programID);
    AchievementHeaded(p, id);
    HeadContents(a, p, id);
    AchievementTail(a, AchievementHead(p, id), p.programCategory != "", category, p.programID != "", program, Image(p));
    ImageContents(p);
  }

  lemma HeadContents(a: seq<Field>, p: Params, id: string)
    requires Headed(a) && a[..5] == AchievementHead(p, id)
    ensures var d := DenoteFields(a);
      && "type" in d && d["type"] == Array([String("Achievement")])
      && "criteria" in d && d["criteria"] == Plain(map["narrative" := String(p.criteria)])
  {
    assert a[1] == a[..5][1] && a[4] == a[..5][4];
    forall j | 1 < j < |a| ensures a[j].key != a[1].key {
      HeadOnce(a, 1, j);
    }
    FieldFound(a, 1);
    forall j | 4 < j < |a| ensures a[j].key != a[4].key {
      HeadOnce(a, 4, j);
    }
    FieldFound(a, 4);
    OneText("Achievement");
    Single(Text("narrative", p.criteria));
  }

  lemma AchievementTail(a: seq<Field>, head: seq<Field>, hasCategory: bool, category: Field, hasProgram: bool, program: Field, image: Field)
    requires a == head + Optional(hasCategory, category) + Optional(hasProgram, program) + [image]
    requires category.key == "category" && program.key == "programId" && image.key == "image"
    requires forall j :: 0 <= j < |head| ==> head[j].key != "category" && head[j].key != "programId" && head[j].key != "image"
    ensures var d := DenoteFields(a);
      ("category" in d <==> hasCategory) && ("programId" in d <==> hasProgram) && "image" in d && d["image"] == Denote(image.value)
  {
    var c, r := Optional(hasCategory, category), Optional(hasProgram, program);
    assert |"category"| == 8 && |"programId"| == 9 && |"image"| == 5;
    assert a == head + c + (r + [image]);
    OptionalThere(a, head, hasCategory, category, r + [image]);
    assert a == (head + c) + r + [image];
    OptionalThere(a, head + c, hasProgram, program, [image]);
    assert a == (head + c + r) + Optional(true, image) + [];
    OptionalThere(a, head + c + r, true, image, []);
  }

  lemma ImageContents(p: Params)
    ensures Denote(Image(p).value) == Plain(map["id" := String(EnsureImageDataURI(p.imageBase64)), "type" := String("Image")])
  {
    assert |"id"| == 2 && |"type"| == 4;
    Two(Text("id", EnsureImageDataURI(p.imageBase64)), Text("type", "Image"));
  }
}
