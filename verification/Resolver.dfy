/** Resolution of an issuer's DID: the local document, did:web, and the on-chain fallback. */
module Resolver {
  import opened Wrappers
  import opened Multibase
  import opened KeyRegistry

  datatype VerificationMethod = VerificationMethod(id: string, kind: string, controller: string, publicKeyMultibase: string)

  datatype DIDDocument = DIDDocument(id: string, methods: seq<VerificationMethod>)

  /** The chain client: absent, failing, or reading the contract's current history. */
  datatype KeyReader = Absent | Failing | Reading(history: seq<KeyEntry>)

  /** `fetch` stands for the HTTP request and the decoding of its body; None is any failure. */
  datatype Service = Service(localDoc: Option<DIDDocument>, fetch: string -> Option<DIDDocument>, keys: KeyReader)

  datatype WebError = UnsupportedMethod | EmptyIdentifier | FetchFailed | IdMismatch | NoMethods

  datatype FallbackError = NoClient | CallFailed | NoKeyAtTime

  datatype ResolveError = NoFallbackAddress(web: WebError) | BothFailed(web: WebError, fallback: FallbackError)

  const DID_WEB := "did:web:"

  function Resolve(s: Service, did: string): Result<DIDDocument, WebError> {
    if s.localDoc.Some? && s.localDoc.value.id == did then Ok(s.localDoc.value)
    else if !(DID_WEB <= did) then Err(UnsupportedMethod)
    else if did == DID_WEB then Err(EmptyIdentifier)
    else match s.fetch(did)
      case None => Err(FetchFailed)
      case Some(doc) =>
        if doc.id != did then Err(IdMismatch)
        else if doc.methods == [] then Err(NoMethods)
        else Ok(doc)
  }

  /** A Unix time as the contract's uint256 argument: a negative one wraps around. */
  function ToUint256(t: int): nat {
    t % 0x1_0000_0000_0000_0000_0000_0000_0000_0000_0000_0000_0000_0000_0000_0000_0000_0000
  }

  function KeyId(did: string): string { did + "#key-1" }

  /** The synthetic document with the single key read from the chain. */
  function FallbackDocument(did: string, key: PublicKey): DIDDocument {
    DIDDocument(did, [VerificationMethod(KeyId(did), "Multikey", did, PublicKeyMultibase(key))])
  }

  function ResolveFallback(s: Service, did: string, issuedAt: int): Result<DIDDocument, FallbackError> {
    match s.keys
    case Absent => Err(NoClient)
    case Failing => Err(CallFailed)
    case Reading(history) =>
      match KeyAtTime(history, ToUint256(issuedAt))
      case NotFound => Err(NoKeyAtTime)
      case Found(key, _) => Ok(FallbackDocument(did, key))
  }

  function ResolveWithFallback(s: Service, did: string, fallbackAddress: string, issuedAt: int): Result<DIDDocument, ResolveError> {
    match Resolve(s, did)
    case Ok(doc) => Ok(doc)
    case Err(web) =>
      if fallbackAddress == "" then Err(NoFallbackAddress(web))
      else match ResolveFallback(s, did, issuedAt)
        case Err(e) => Err(BothFailed(web, e))
        case Ok(doc) => Ok(doc)
  }

  // ----- the key a proof refers to

  datatype KeySearch =
    | KeyFound(key: PublicKey)
    | EmptyDocument
    | BadKey(methodId: string, why: Failure)
    | MethodNotFound(target: string)
    | NoUsableKey
    | DecoderPanics

  /** A method is skipped if another one is wanted or if it carries no key. */
  predicate Skipped(m: VerificationMethod, target: string) {
    (target != "" && m.id != target) || m.publicKeyMultibase == ""
  }

  function SearchMethods(methods: seq<VerificationMethod>, target: string): KeySearch {
    if methods == [] then (if target != "" then MethodNotFound(target) else NoUsableKey)
    else if Skipped(methods[0], target) then SearchMethods(methods[1..], target)
    else match DecodePublicKey(methods[0].publicKeyMultibase)
      case Returned(key) => KeyFound(key)
      case Failed(why) => BadKey(methods[0].id, why)
      case Panicked => DecoderPanics
  }

  function FindKey(doc: DIDDocument, target: string): KeySearch {
    if doc.methods == [] then EmptyDocument else SearchMethods(doc.methods, target)
  }

  method ExtractPublicKey(doc: DIDDocument, target: string) returns (r: KeySearch)
    ensures r == FindKey(doc, target)
  {
    if |doc.methods| == 0 {
      return EmptyDocument;
    }
    var i := 0;
    while i < |doc.methods|
      invariant i <= |doc.methods|
      invariant SearchMethods(doc.methods, target) == SearchMethods(doc.methods[i..], target)
    {
      var m := doc.methods[i];
      assert doc.methods[i..][1..] == doc.methods[i + 1..];
      if (target != "" && m.id != target) || m.publicKeyMultibase == "" {
        i := i + 1;
        continue;
      }
      match DecodePublicKey(m.publicKeyMultibase) {
        case Returned(key) => return KeyFound(key);
        case Failed(why) => return BadKey(m.id, why);
        case Panicked => return DecoderPanics;
      }
    }
    return if target != "" then MethodNotFound(target) else NoUsableKey;
  }

  /** The i-th method is the first that is not skipped, and it decodes to the key. */
  ghost predicate FoundAt(methods: seq<VerificationMethod>, target: string, i: nat, key: PublicKey) {
    && i < |methods| && !Skipped(methods[i], target)
    && (forall j :: 0 <= j < i ==> Skipped(methods[j], target))
    && DecodePublicKey(methods[i].publicKeyMultibase) == Returned(key)
  }

  lemma {:induction false} KeyFoundExactly(methods: seq<VerificationMethod>, target: string, key: PublicKey)
    ensures SearchMethods(methods, target) == KeyFound(key) <==> exists i: nat :: FoundAt(methods, target, i, key)
  {
    if methods != [] {
      var more := methods[1..];
      KeyFoundExactly(more, target, key);
      assert forall i: nat :: FoundAt(methods, target, i, key) && i > 0 ==> FoundAt(more, target, i - 1, key);
      if Skipped(methods[0], target) {
        if i: nat :| FoundAt(more, target, i, key) {
          assert forall j :: 1 <= j < i + 1 ==> methods[j] == more[j - 1];
          assert FoundAt(methods, target, i + 1, key);
        }
      } else {
        assert DecodePublicKey(methods[0].publicKeyMultibase) == Returned(key) ==> FoundAt(methods, target, 0, key);
      }
    }
  }

  /** The key read from the chain is the one the verifier gets, if the proof names the key the
      synthetic document gives it or names none; otherwise the verifier gets no key. */
  lemma FallbackKey(did: string, key: PublicKey, target: string)
    ensures FindKey(FallbackDocument(did, key), target) ==
      if target == "" || target == KeyId(did) then KeyFound(key) else MethodNotFound(target)
  {
    KeyRoundTrip(key);
    var m := FallbackDocument(did, key).methods;
    assert m[1..] == [];
    assert SearchMethods(m[1..], target) == if target != "" then MethodNotFound(target) else NoUsableKey;
    assert m[0].publicKeyMultibase != "";
  }

  // ----- what resolution gives

  /** The server's own document is asked for. */
  predicate Own(s: Service, did: string, doc: DIDDocument) { s.localDoc == Some(doc) && doc.id == did }

  /** A document is fetched for a did:web with an identifier. */
  predicate Fetched(s: Service, did: string, doc: DIDDocument) {
    |did| > 8 && did[..8] == "did:web:" && s.fetch(did) == Some(doc)
  }

  predicate HasOwn(s: Service, did: string) { s.localDoc.Some? && s.localDoc.value.id == did }

  /** did:web gives the server's own document, or else a fetched one that is about this DID and has a
      verification method; nothing else. */
  lemma ResolveExactly(s: Service, did: string, doc: DIDDocument)
    ensures Resolve(s, did) == Ok(doc) <==>
      Own(s, did, doc) || (!HasOwn(s, did) && Fetched(s, did, doc) && doc.id == did && doc.methods != [])
    ensures Resolve(s, did) == Ok(doc) ==> doc.id == did
  {
    assert |did| > 8 && did[..8] == "did:web:" <==> DID_WEB <= did && did != DID_WEB;
  }

  /** Why it gives none. */
  lemma ResolveFails(s: Service, did: string)
    requires !HasOwn(s, did)
    ensures Resolve(s, did) == Err(UnsupportedMethod) <==> |did| < 8 || did[..8] != "did:web:"
    ensures Resolve(s, did) == Err(EmptyIdentifier) <==> did == "did:web:"
    ensures |did| > 8 && did[..8] == "did:web:" ==>
      && (Resolve(s, did) == Err(FetchFailed) <==> s.fetch(did) == None)
      && (Resolve(s, did) == Err(IdMismatch) <==> s.fetch(did).Some? && s.fetch(did).value.id != did)
      && (Resolve(s, did) == Err(NoMethods) <==> s.fetch(did).Some? && s.fetch(did).value.id == did && s.fetch(did).value.methods == [])
  {
    assert DID_WEB <= did <==> |did| >= 8 && did[..8] == "did:web:";
  }

  /** The chain is asked only if did:web gives nothing and the credential names a contract; its answer
      is the key that was active at the credential's second, in a document of this DID. */
  lemma FallbackExactly(s: Service, did: string, address: string, t: nat, doc: DIDDocument)
    requires t < 0x1_0000_0000_0000_0000_0000_0000_0000_0000
    ensures ResolveWithFallback(s, did, address, t) == Ok(doc) <==>
      || Resolve(s, did) == Ok(doc)
      || (Resolve(s, did).Err? && address != "" && s.keys.Reading? && KeyAtTime(s.keys.history, t).Found?
          && doc == FallbackDocument(did, KeyAtTime(s.keys.history, t).key))
  {
    assert ToUint256(t) == t;
  }

  /** A time before 1970 wraps around to the far future, where only a key that is still active is
      found. */
  lemma TimeBeforeEpoch(t: int, h: seq<KeyEntry>, now: nat)
    requires -0x1_0000_0000_0000_0000_0000_0000_0000_0000 < t < 0 && now < 0x1_0000_0000_0000_0000_0000_0000_0000_0000
    requires Chain(h) && Stamped(h, now)
    ensures KeyAtTime(h, ToUint256(t)) == ActiveKey(h)
  {
    assert ToUint256(t) == 0x1_0000_0000_0000_0000_0000_0000_0000_0000_0000_0000_0000_0000_0000_0000_0000_0000 + t;
    ScanIsActiveKey(h, ToUint256(t));
  }

  /** The synthetic document names the DID throughout and its one key "#key-1". */
  lemma FallbackDocumentIs(did: string, key: PublicKey)
    ensures var doc := FallbackDocument(did, key);
      && doc.id == did && |doc.methods| == 1
      && doc.methods[0].id == did + "#key-1" && doc.methods[0].kind == "Multikey" && doc.methods[0].controller == did
      && DecodePublicKey(doc.methods[0].publicKeyMultibase) == Returned(key)
  {
    KeyRoundTrip(key);
  }

  /** The i-th method is the first that is not skipped. */
  ghost predicate FirstAt(methods: seq<VerificationMethod>, target: string, i: nat) {
    i < |methods| && !Skipped(methods[i], target) && forall j :: 0 <= j < i ==> Skipped(methods[j], target)
  }

  /** Why the search finds no key: no methods, none that is wanted and has a key, or the first such
      one does not decode. */
  lemma {:induction false} SearchFails(methods: seq<VerificationMethod>, target: string)
    ensures (forall j :: 0 <= j < |methods| ==> Skipped(methods[j], target)) ==>
      SearchMethods(methods, target) == if target != "" then MethodNotFound(target) else NoUsableKey
    ensures forall i: nat :: FirstAt(methods, target, i) ==>
      SearchMethods(methods, target) == match DecodePublicKey(methods[i].publicKeyMultibase)
        case Returned(key) => KeyFound(key)
        case Failed(why) => BadKey(methods[i].id, why)
        case Panicked => DecoderPanics
    decreases |methods|
  {
    if methods != [] {
      var more := methods[1..];
      SearchFails(more, target);
      forall i: nat | FirstAt(methods, target, i)
        ensures SearchMethods(methods, target) == match DecodePublicKey(methods[i].publicKeyMultibase)
          case Returned(key) => KeyFound(key)
          case Failed(why) => BadKey(methods[i].id, why)
          case Panicked => DecoderPanics
      {
        if i > 0 {
          assert FirstAt(more, target, i - 1);
        }
      }
    }
  }

  /** Which methods are passed over: those of another name than the one that is wanted, and those
      without a key. */
  lemma SkippedExactly(m: VerificationMethod, target: string)
    ensures !Skipped(m, target) <==> m.publicKeyMultibase != "" && (target == "" || m.id == target)
  {
  }
}
