/** What a reader of an issued credential finds in it. */
module IssuedCredential {
  import opened Wrappers
  import opened Json
  import opened RoundTrip
  import opened Canonical
  import opened CredentialIds
  import opened Multibase
  import opened Crypto
  import opened Credential
  import V = Verifier

  // ----- reading fields of an ordered map

  lemma {:induction false} FieldFound(fields: seq<Field>, i: nat)
    requires i < |fields|
    requires forall j :: i < j < |fields| ==> fields[j].key != fields[i].key
    ensures fields[i].key in DenoteFields(fields)
    ensures DenoteFields(fields)[fields[i].key] == Denote(fields[i].value)
  {
    if i > 0 {
      FieldFound(fields[1..], i - 1);
    } else {
      FieldAbsent(fields[1..], fields[0].key);
    }
  }

  lemma {:induction false} FieldAbsent(fields: seq<Field>, key: string)
    requires forall j :: 0 <= j < |fields| ==> fields[j].key != key
    ensures key !in DenoteFields(fields)
  {
    if fields != [] {
      FieldAbsent(fields[1..], key);
    }
  }

  lemma AppendedAfterFirst(fields: seq<Field>, f: Field)
    requires fields != []
    ensures (fields + [f])[0] == fields[0] && (fields + [f])[1..] == fields[1..] + [f]
  {
  }

  lemma MergeAssociates(a: V.Object, b: V.Object, c: V.Object)
    ensures (a + b) + c == a + (b + c)
  {
  }

  lemma OneFieldMeans(f: Field)
    ensures DenoteFields([] + [f]) == map[f.key := Denote(f.value)]
  {
    assert ([] + [f])[1..] == [];
  }

  lemma {:induction false} FieldAppended(fields: seq<Field>, f: Field)
    ensures DenoteFields(fields + [f]) == DenoteFields(fields) + map[f.key := Denote(f.value)]
  {
    if fields == [] {
      OneFieldMeans(f);
    } else {
      AppendedAfterFirst(fields, f);
      FieldAppended(fields[1..], f);
      MergeAssociates(map[fields[0].key := Denote(fields[0].value)], DenoteFields(fields[1..]), map[f.key := Denote(f.value)]);
    }
  }

  // ----- the credential a signer issues at second t

  datatype Issue = Issue(secret: SecretKey, keyId: string, p: Params, uuids: Uuids, t: int)

  function BodyOf(clock: Clock, i: Issue): seq<Field> {
    Body(i.p, i.uuids, clock.format(i.t))
  }

  ghost function ProofOf(suite: Suite, clock: Clock, i: Issue): seq<Field> {
    Credential.Proof(i.keyId, clock.format(i.t), SignatureMultibase(suite.sign(i.secret, Message(suite, BodyOf(clock, i)))))
  }

  /** The map BuildCredential returns. */
  ghost function Issued(suite: Suite, clock: Clock, i: Issue): map<string, Value> {
    Sealed(suite, i.secret, i.keyId, BodyOf(clock, i), clock.format(i.t))
  }

  /** What any JSON text of it denotes. */
  ghost function Meaning(suite: Suite, clock: Clock, i: Issue): V.Object {
    DenoteFields(BodyOf(clock, i)) + map["proof" := Plain(DenoteFields(ProofOf(suite, clock, i)))]
  }

  lemma SealedMeans(body: seq<Field>, proof: seq<Field>)
    ensures Denote(Plain(ToMap(body + [Field("proof", Ordered(proof))])))
      == Plain(DenoteFields(body) + map["proof" := Plain(DenoteFields(proof))])
  {
    ToMapMeaning(body + [Field("proof", Ordered(proof))]);
    FieldAppended(body, Field("proof", Ordered(proof)));
  }

  lemma ProofTexts(keyId: string, created: string, proofValue: string)
    ensures forall f :: f in Credential.Proof(keyId, created, proofValue) ==> f.value.String?
  {
  }

  lemma IssuedFits(suite: Suite, clock: Clock, i: Issue)
    ensures Fits(Plain(Issued(suite, clock, i)), MAX_DEPTH)
  {
    var proof := ProofOf(suite, clock, i);
    ProofTexts(i.keyId, clock.format(i.t), SignatureMultibase(suite.sign(i.secret, Message(suite, BodyOf(clock, i)))));
    SealedFits(i.p, i.uuids, clock.format(i.t), proof, MAX_DEPTH);
  }

  lemma IssuedMeans(suite: Suite, clock: Clock, i: Issue)
    ensures Denote(Plain(Issued(suite, clock, i))) == Plain(Meaning(suite, clock, i))
    ensures Fits(Plain(Issued(suite, clock, i)), MAX_DEPTH)
  {
    IssuedFits(suite, clock, i);
    SealedMeans(BodyOf(clock, i), ProofOf(suite, clock, i));
  }

  /** Printed in any style, from any Go value of the same meaning, the credential reads back as
      that meaning: whatever the order of keys and whether maps are plain or ordered. */
  lemma AnyRenderingReadsBack(suite: Suite, clock: Clock, i: Issue, v: Value, style: Style)
    requires Fits(v, MAX_DEPTH) && Denote(v) == Denote(Plain(Issued(suite, clock, i)))
    ensures Parse(Print(v, style)) == Ok(Plain(Meaning(suite, clock, i)))
    ensures Parse(Print(Plain(Issued(suite, clock, i)), style)) == Ok(Plain(Meaning(suite, clock, i)))
  {
    IssuedMeans(suite, clock, i);
    ParsePrint(v, style, MAX_DEPTH);
    ParsePrint(Plain(Issued(suite, clock, i)), style, MAX_DEPTH);
  }

  // ----- what the readers return on it

  lemma BodyKeys(clock: Clock, i: Issue)
    ensures var b := BodyOf(clock, i);
      |b| == 7 && b[0].key == "@context" && b[1].key == "type" && b[2].key == "id" && b[3].key == "issuer"
      && b[4].key == "validFrom" && b[5].key == "credentialSubject" && b[6].key == "didFallback"
  {
    AssembledKeys(i.p, CredentialId(i.p, i.uuids), Subject(i.p, AchievementId(i.p, i.uuids)), clock.format(i.t));
  }

  lemma AssembledKeys(p: Params, id: string, subject: seq<Field>, validFrom: string)
    ensures var b := Assembled(p, id, subject, validFrom);
      |b| == 7 && b[0].key == "@context" && b[1].key == "type" && b[2].key == "id" && b[3].key == "issuer"
      && b[4].key == "validFrom" && b[5].key == "credentialSubject" && b[6].key == "didFallback"
  {
  }

  /** None of the seven keys occurs twice. */
  lemma SevenKeys(b: seq<Field>, n: nat)
    requires |b| == 7 && b[0].key == "@context" && b[1].key == "type" && b[2].key == "id" && b[3].key == "issuer"
    requires b[4].key == "validFrom" && b[5].key == "credentialSubject" && b[6].key == "didFallback"
    requires n < 7
    ensures b[n].key in DenoteFields(b) && DenoteFields(b)[b[n].key] == Denote(b[n].value)
  {
    forall j | n < j < |b| ensures b[j].key != b[n].key {
      assert |b[0].key| == 8 && |b[1].key| == 4 && |b[2].key| == 2 && |b[3].key| == 6;
      assert |b[4].key| == 9 && |b[5].key| == 17 && |b[6].key| == 11;
    }
    FieldFound(b, n);
  }

  lemma NotAmong(b: seq<Field>, key: string)
    requires |b| == 7 && b[0].key == "@context" && b[1].key == "type" && b[2].key == "id" && b[3].key == "issuer"
    requires b[4].key == "validFrom" && b[5].key == "credentialSubject" && b[6].key == "didFallback"
    requires |key| == 5 || |key| == 10 || |key| == 14
    ensures key !in DenoteFields(b)
  {
    assert |b[0].key| == 8 && |b[1].key| == 4 && |b[2].key| == 2 && |b[3].key| == 6;
    assert |b[4].key| == 9 && |b[5].key| == 17 && |b[6].key| == 11;
    FieldAbsent(b, key);
  }

  lemma OtherKeys(b: seq<Field>)
    requires |b| == 7 && b[0].key == "@context" && b[1].key == "type" && b[2].key == "id" && b[3].key == "issuer"
    requires b[4].key == "validFrom" && b[5].key == "credentialSubject" && b[6].key == "didFallback"
    ensures var d := DenoteFields(b); "proof" !in d && "validUntil" !in d && "expirationDate" !in d
  {
    NotAmong(b, "proof");
    NotAmong(b, "validUntil");
    NotAmong(b, "expirationDate");
  }

  lemma BodyRead(clock: Clock, i: Issue)
    ensures var d := DenoteFields(BodyOf(clock, i));
      && "proof" !in d && "validUntil" !in d && "expirationDate" !in d
      && "id" in d && d["id"] == String(CredentialURL(i.p.serverURL, CredentialId(i.p, i.uuids)))
      && "issuer" in d && d["issuer"] == Denote(Issuer(i.p))
      && "validFrom" in d && d["validFrom"] == String(clock.format(i.t))
      && "credentialSubject" in d && d["credentialSubject"] == Denote(Ordered(Subject(i.p, AchievementId(i.p, i.uuids))))
      && "didFallback" in d && d["didFallback"] == Denote(DidFallback(i.p))
  {
    var b := BodyOf(clock, i);
    BodyKeys(clock, i);
    SevenKeys(b, 2);
    SevenKeys(b, 3);
    SevenKeys(b, 4);
    SevenKeys(b, 5);
    SevenKeys(b, 6);
    OtherKeys(b);
    BodyValues(clock, i);
  }

  lemma BodyValues(clock: Clock, i: Issue)
    ensures var b := BodyOf(clock, i);
      |b| == 7 && b[2].value == String(CredentialURL(i.p.serverURL, CredentialId(i.p, i.uuids)))
      && b[3].value == Issuer(i.p) && b[4].value == String(clock.format(i.t))
      && b[5].value == Ordered(Subject(i.p, AchievementId(i.p, i.uuids))) && b[6].value == DidFallback(i.p)
  {
    AssembledValues(i.p, CredentialId(i.p, i.uuids), Subject(i.p, AchievementId(i.p, i.uuids)), clock.format(i.t));
  }

  lemma AssembledValues(p: Params, id: string, subject: seq<Field>, validFrom: string)
    ensures var b := Assembled(p, id, subject, validFrom);
      |b| == 7 && b[2].value == String(CredentialURL(p.serverURL, id)) && b[3].value == Issuer(p)
      && b[4].value == String(validFrom) && b[5].value == Ordered(subject) && b[6].value == DidFallback(p)
  {
  }

  lemma IssuerRead(p: Params)
    ensures Denote(Issuer(p)).Plain?
    ensures V.StringField(Denote(Issuer(p)).entries, "id") == p.issuerDID
    ensures V.StringField(Denote(Issuer(p)).entries, "name") == p.issuerName
  {
    FieldFound(Issuer(p).fields, 0);
    FieldFound(Issuer(p).fields, 2);
  }

  lemma FallbackRead(p: Params)
    ensures Denote(DidFallback(p)).Plain?
    ensures V.StringField(Denote(DidFallback(p)).entries, "contractAddress") == p.contractAddress
  {
    FieldFound(DidFallback(p).fields, 1);
  }

  lemma ProofRead(keyId: string, created: string, proofValue: string)
    ensures var d := DenoteFields(Credential.Proof(keyId, created, proofValue));
      V.StringField(d, "verificationMethod") == keyId && V.StringField(d, "proofValue") == proofValue
  {
    FieldFound(Credential.Proof(keyId, created, proofValue), 2);
    FieldFound(Credential.Proof(keyId, created, proofValue), 5);
  }

  /** What the verifier reads in a body with a proof beside it. */
  lemma BodyWithProof(body: V.Object, proof: V.Object, m: V.Object)
    requires m == body + map["proof" := Plain(proof)]
    requires "proof" !in body && "validUntil" !in body && "expirationDate" !in body
    requires "id" in body && body["id"].String?
    requires "issuer" in body && body["issuer"].Plain? && "didFallback" in body && body["didFallback"].Plain?
    requires "validFrom" in body && body["validFrom"].String? && body["validFrom"].s != ""
    ensures "proof" in m && m["proof"].Plain? && m - {"proof"} == body && V.Proof(m) == proof
    ensures V.IssuerInfo(m) == (V.StringField(body["issuer"].entries, "id"), V.StringField(body["issuer"].entries, "name"))
    ensures V.FallbackAddress(m) == V.StringField(body["didFallback"].entries, "contractAddress")
    ensures V.IssuedAt(m) == body["validFrom"].s && V.ExpiresAt(m) == ""
    ensures V.CredentialIdOf(m) == AfterLast('/', body["id"].s)
  {
  }

  /** Everything the verifier looks at. */
  lemma MeaningRead(suite: Suite, clock: Clock, i: Issue)
    requires clock.RoundTrips(i.t)
    ensures var m := Meaning(suite, clock, i);
      && "proof" in m && m["proof"].Plain?
      && m - {"proof"} == DenoteFields(BodyOf(clock, i))
      && V.IssuerInfo(m) == (i.p.issuerDID, i.p.issuerName)
      && V.FallbackAddress(m) == i.p.contractAddress
      && V.IssuedAt(m) == clock.format(i.t) && V.ExpiresAt(m) == ""
      && V.CredentialIdOf(m) == AfterLast('/', CredentialURL(i.p.serverURL, CredentialId(i.p, i.uuids)))
      && V.StringField(V.Proof(m), "verificationMethod") == i.keyId
      && V.StringField(V.Proof(m), "proofValue") == SignatureMultibase(suite.sign(i.secret, Message(suite, BodyOf(clock, i))))
  {
    BodyRead(clock, i);
    IssuerRead(i.p);
    FallbackRead(i.p);
    ProofRead(i.keyId, clock.format(i.t), SignatureMultibase(suite.sign(i.secret, Message(suite, BodyOf(clock, i)))));
    BodyWithProof(DenoteFields(BodyOf(clock, i)), DenoteFields(ProofOf(suite, clock, i)), Meaning(suite, clock, i));
  }
}
