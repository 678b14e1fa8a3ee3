# The Badge: a verified model

The Badge issues Open Badges 3.0 credentials: a server signs a JSON document with Ed25519, anchors its
hash and its signing keys in two Polygon contracts, and verifies documents that come back to it.
This project models the parts of that system that decide whether a badge verifies, and proves what
they promise together: **an issued badge keeps verifying, and a badge revoked on-chain stops**. Where
the code does not keep that promise, the exact condition under which it does is proved, with a run that
breaks it.

`dafny verify dfyconfig.toml` checks everything.

## The modules, bottom up

- `Positional` — numbers in a base, and digit strings moved from one base to another.
- `Base58`, `Multibase` — Base58btc as Go encodes it (repeated division), as Go decodes it (an in-place
  carry loop over a fixed buffer) and as Python does both; keys and signatures as multibase text. All
  programs are proved against one pair of functions, `Encode` and `Decode`.
- `Ordering`, `Json`, `RoundTrip`, `Canonical` — Go values as encoding/json sees them, a printer, a full
  parser (escapes, surrogates, number grammar, white space, nesting limit), what a value denotes, and the
  canonical form. Maps have no order in the model; the programs that walk one take its keys in an arbitrary
  order.
- `Grammar` — the JSON grammar of RFC 8259 as trees that keep every choice of spelling, and the parser proved to accept
  exactly their texts.
- `Crypto` — SHA-256, Ed25519 and RFC 3339 as operations given to the model. The one law of signatures that is assumed
  is `Correct`: what a signer signs verifies under the signer's key. That some other key or text is rejected is
  only ever assumed of the one signature at hand (`EndToEnd.OnlySigner`, `EndToEnd.Unforged`), because no scheme with
  64-byte signatures and 32-byte digests can have it for all.
- `CredentialIds`, `Credential`, `IssuedCredential`, `CredentialContents` — identifiers, the builder, and what a reader
  finds in what it built, key by key.
- `KeyRegistry`, `BadgeRegistry` — the two contracts, as transaction functions and as classes whose methods
  update storage in place; the SQL key queries.
- `Resolver`, `Verifier` — DID resolution with its on-chain fallback, and the verification pipeline.
- `Verdicts` — what the pipeline's answer means in terms of the text, the time and the chain's reply.
- `EndToEnd` — builder, any JSON rendering, resolver, contracts and verifier together.
- `Pool`, `PoolGuarantees` — the goroutines, channels and shutdown of the pool as a step system, and what holds over its runs.
- `Reissue`, `ReissueChain` — issuing and reissuing as programs, and what any number of reissues keeps.
- `IssuedBadges` — from the request to the issued text, its row and the verifier's report.
- `Issuance`, `IssuanceProgress`, `Lifecycle` — issue, record, reissue and revoke across the database and the chain as a step
  system with failing writes and crashes, and the verifier's answer in every reachable state.
- `Witness` — for every badge, worlds that meet the hypotheses of the main theorems together, with signatures and
  digests of fixed length.

## What the proofs found

- **Rotation and did:web.** `docs/did-design.md:52` and `docs/badge-flow.md:92` say that a badge keeps verifying
  under its old key after a rotation. The code looks into the key history only when did:web fails. While did:web
  answers, a badge is judged by the key the live document now has under the proof's key name
  (`EndToEnd.LiveDocumentDecides`), and the server always serves its current key as `#key-1`, so a rotation makes
  earlier badges fail (`EndToEnd.RotationBreaksLiveVerification`). With did:web gone the promise holds for ever
  (`EndToEnd.LongTermVerdict`).
- **Reissued badges cannot be revoked for the verifier.** `app/internal/handler/credential.go:93` lists on-chain
  recording as a step of a reissue; the step does nothing. Such a badge is never on-chain, and whatever its row says it goes
  on being reported valid (`Lifecycle.ReissuedCannotBeRevoked`); from every state with a badge in it there is a run
  that ends so (`Lifecycle.RevokedReissueStaysValid`).
- **A revocation that comes before the recording is lost.** A mined revocation takes effect exactly if the badge is recorded
  by then (`Issuance.MinedRevocationExactly`). A server can make sure of it: once the contract, or a transaction hash
  in the row, says that the recording was mined, no later revocation is lost (`Issuance.RevokingAfterRecording`). The
  code does not look, and `Issuance.RevocationCanBeLost` is a run that ends with the badge revoked in the database, recorded
  and not revoked on-chain, and nothing left to happen.
- **Identifiers.** The verifier cuts the identifier out of the URL at the last '/', so an identifier with '/' or with the
  "urn:uuid:" prefix is looked up under another name and its revocation is not seen
  (`CredentialIds.RecoveredExactly`, `EndToEnd.OwnRevocationExactly`). Two draws give one identifier exactly if the code and
  category texts agree and the digits of year and number run together alike (`CredentialIds.CollideExactly`); with years
  of equal length that needs the same number (`CredentialIds.IdsDiffer`), while a year and that year with a digit appended
  share identifiers (`CredentialIds.LongYearsCollide`).
- **Submit after close.** The comment at `app/internal/worker/pool.go:98-101` promises a value on every result channel; a
  `Submit` that reaches its select after `close` can panic instead (`PoolGuarantees.LateSubmitCanPanic`). `PoolGuarantees.PanicExactly`
  says when; one that was already asleep in its select when the pool was cancelled is refused (`PoolGuarantees.ParkedIsRefused`).
- **Same-second key changes.** An answer about second `t` is final only after `t`: a change at `t` itself alters it
  (`KeyRegistry.ChangesExactly`).
- **Base58 lookup.** A character beyond U+00FF makes Go's decoder index past its table and panic, in a key or in a
  signature (`Multibase.PanicExactly`).
- **Reissue rewrites achievement UUIDs.** A linked achievement identifier comes back in uuid's canonical spelling
  (`ReissueChain.AchievementKeptExactly`, `ReissueChain.CapitalsAreLost`).

## Model

| member | source | states |
|---|---|---|
| Base58.AlphabetExactly | app/internal/service/did_resolver.go:293 | the alphabet is the 58 alphanumeric characters without 0, I, O and l, in ascending order |
| Base58.DecodeEncode | app/internal/service/signer.go:98-134 | decoding an encoded byte string gives it back, leading zeros and the empty string included |
| Base58.EncodeDecode | app/internal/service/did_resolver.go:292-344 | decoding succeeds exactly on strings over the alphabet, and then encoding the result gives the string back |
| Base58.BufferSuffices | app/internal/service/did_resolver.go:316-319 | 58^n fits in n\*733/1000+1 bytes for every n, so the fixed buffer never overflows |
| Base58.EncodeGo | app/internal/service/signer.go:98-134 | the division loop, padding and in-place reversal compute the positional encoding |
| Base58.ReverseInPlace | app/internal/service/signer.go:128-131 | swapping from both ends reverses the buffer |
| Base58.EncodePython | scripts/multibase_codec.py:30-42 | the big-integer loop computes the same encoding as Go |
| Base58.MultiplyAdd | app/internal/service/did_resolver.go:326-330 | one pass over the buffer multiplies its number by 58, adds the digit and leaves the exact carry |
| Base58.DecodeGo | app/internal/service/did_resolver.go:292-344 | the carry loop computes the positional decoding with its errors and its panic; "value overflow" is never returned |
| Base58.ToBytesShortest | scripts/multibase_codec.py:49 | bit_length rounded up to bytes is exactly enough for to_bytes and gives the shortest string |
| Base58.DecodePython | scripts/multibase_codec.py:45-57 | the Python decoder returns what Go's does and raises exactly when Go fails or panics |
| Multibase.SignatureSpelling | app/internal/service/verifier.go:333-348 | a text decodes to a signature exactly if it is 'z' and that signature's encoding |
| Multibase.PanicExactly | app/internal/service/did_resolver.go:260-313 | which texts make the decoder index beyond its 256-entry table |
| Multibase.KeySpellings | app/internal/service/did_resolver.go:260-288 | Go accepts exactly two spellings of a key, with the multicodec prefix and without |
| Multibase.KeyRoundTrip | app/internal/service/signer.go:72-76 | Go's decoder and Python's invert both encoders on every 32-byte key |
| Multibase.KeysLookAlike | scripts/multibase_codec.py:60-71 | every encoded key has 48 characters and starts with "z6Mk" |
| Multibase.PrefixIsVarint | app/internal/service/signer.go:72-76 | the two prefix bytes are the varint of the multicodec code 0xed |
| Multibase.PythonAndGoAgree | scripts/multibase_codec.py:73-89 | when Python decodes, Go gives the same key; Go alone accepts exactly the unprefixed spelling |
| Ordering.LessMeans | app/internal/service/credential.go:287-291 | the order of keys is ascending by the first character in which they differ, a prefix first |
| Ordering.IssuerKeysSorted | app/internal/service/credential.go:287-291 | the keys of every issuer object are written as id, name, type |
| RoundTrip.ParsePrint | app/internal/service/credential.go:282-329 | printing any Go value in any style and parsing gives the denoted value, if and only if it is nested within the limit |
| RoundTrip.PrintInjective | app/internal/service/credential.go:265-329 | equal texts come from values with equal meaning, whatever the printers |
| Grammar.ParsesExactly | app/internal/service/verifier.go:71-75 | json.Unmarshal accepts exactly the texts of the grammar nested within its limit, and reads what their trees mean: blanks, escapes, surrogate pairs, numbers, repeated keys |
| Grammar.Unambiguous | app/internal/service/verifier.go:71-75 | no text has two meanings |
| Grammar.NumberExactly | app/internal/service/verifier.go:71-75 | the number tokens are sign, whole part, fraction and exponent as section 6 of RFC 8259 has them |
| Grammar.LastWins | app/internal/service/verifier.go:71-75 | of several members with one key the last is read |
| Verdicts.SpellingDoesNotMatter | app/internal/service/verifier.go:64-200 | texts of trees with one meaning get the same verdicts |
| Verdicts.UnspelledIsRefused | app/internal/service/verifier.go:71-75 | a text outside the grammar, or nested too deep, is invalid JSON |
| Canonical.CanonicalExactly | app/internal/service/credential.go:240-329 | two values, ordered or not, have the same canonical bytes if and only if they denote the same |
| Canonical.CanonicalStable | app/internal/service/credential.go:265-279 | canonical bytes read back as the denoted value, and canonicalizing that changes nothing |
| Canonical.CanonicalizableExactly | app/internal/service/credential.go:265-279 | canonicalization fails exactly on values nested more than ten thousand deep |
| Canonical.CanonicalOrder | app/internal/service/credential.go:287-316 | the canonical text of an object is its members, each key once and in ascending order, joined by single commas |
| Canonical.EscapesExactly | app/internal/service/credential.go:293-302 | which characters of a string are written otherwise than as themselves, and how |
| Canonical.KnownText | app/internal/service/credential.go:265-329 | one canonical text in full |
| Canonical.MarshalJSON | app/internal/service/credential.go:240-261 | the order-preserving printer writes the specified text of an ordered map |
| Canonical.SortedKeyList | app/internal/service/credential.go:287-291 | collecting the keys in any traversal order and sorting gives one list |
| Canonical.MarshalSorted | app/internal/service/credential.go:282-329 | the recursive sorted printer writes the specified text of every value |
| Canonical.CanonicalJSON | app/internal/service/credential.go:265-279 | marshal, unmarshal, marshal sorted: the text of the denoted value, or an error exactly beyond the nesting limit |
| Canonical.OrderedMapToMap | app/internal/service/credential.go:343-354 | the conversion loop, last value winning and nested ordered maps converted |
| Canonical.ToMapMeaning | app/internal/service/credential.go:343-354 | the converted map denotes what the ordered map denotes |
| KeyRegistry.RunKeepsChain | contracts/KeyRegistry.sol:91-150 | every run keeps the history a chain of half-open intervals, only the last possibly open |
| KeyRegistry.ReachableChain | contracts/KeyRegistry.sol:66-150 | every history reachable from deployment is such a chain |
| KeyRegistry.AtMostOneCovers | contracts/KeyRegistry.sol:183-202 | at most one entry covers a second |
| KeyRegistry.ScanFinds | contracts/KeyRegistry.sol:183-202 | the backward scan returns the covering entry, and reverts exactly when there is none |
| KeyRegistry.ScanIsActiveKey | contracts/KeyRegistry.sol:162-202 | from the last timestamp on the time query agrees with getActiveKey |
| KeyRegistry.PastUnchanged | contracts/KeyRegistry.sol:91-150 | a transaction at `now` leaves every answer, or revert, about earlier seconds unchanged |
| KeyRegistry.PastImmutable | contracts/KeyRegistry.sol:91-202 | the same over every run |
| KeyRegistry.ChangesExactly | contracts/KeyRegistry.sol:91-150 | a key change keeps the answer about t exactly if t is earlier, or it rotates to the same key in the same second |
| KeyRegistry.DeploysExactly | contracts/KeyRegistry.sol:66-80 | which deployments succeed, and that the deployer owns the contract with the key active from then on |
| KeyRegistry.SucceedsExactly | contracts/KeyRegistry.sol:52-150 | a transaction succeeds exactly if the owner sends it and, for the key in hand, an active key exists or does not, as the call needs |
| KeyRegistry.Effects | contracts/KeyRegistry.sol:91-235 | what each successful transaction changes, and that it changes nothing else |
| KeyRegistry.StrangersChangeNothing | contracts/KeyRegistry.sol:52-55 | over any run, transactions of others than the owner leave the contract as it was |
| KeyRegistry.OwnersActivate | contracts/KeyRegistry.sol:52-150 | over any run every entry keeps its key and start, and every new one was activated by whoever owned the contract then |
| KeyRegistry.QueryAgrees | app/internal/repository/badge_repo.go:441-462 | on a table mirroring the history the SQL time query has a result, and every result is the contract's answer |
| KeyRegistry.ActiveQueryAgrees | app/internal/repository/badge_repo.go:417-436 | the SQL active-key query returns the contract's active key |
| KeyRegistry.Contract.constructor | contracts/KeyRegistry.sol:66-80 | deployment sets the initial state |
| KeyRegistry.Contract.Rotate | contracts/KeyRegistry.sol:91-111 | the storage updates are the specified transaction, revert or not |
| KeyRegistry.Contract.Revoke | contracts/KeyRegistry.sol:118-128 | likewise for emergency revocation |
| KeyRegistry.Contract.Add | contracts/KeyRegistry.sol:135-150 | likewise for adding a key |
| KeyRegistry.Contract.ChangeOwner | contracts/KeyRegistry.sol:228-235 | likewise for a transfer of ownership |
| KeyRegistry.Contract.GetActiveKey | contracts/KeyRegistry.sol:162-175 | returns the active key or reverts |
| KeyRegistry.Contract.GetKeyAtTime | contracts/KeyRegistry.sol:183-202 | the decrementing loop is the backward scan |
| BadgeRegistry.RecordAllExactly | contracts/BadgeRegistry.sol:128-157 | a batch records exactly if its IDs are distinct and unissued and no hash is zero; then exactly these entries are added |
| BadgeRegistry.RevokeAllExactly | contracts/BadgeRegistry.sol:183-200 | a batch revokes exactly if its IDs are distinct, issued and not revoked; then exactly these are |
| BadgeRegistry.BatchIsSingles | contracts/BadgeRegistry.sol:105-157 | a successful batch equals the single calls in order at one timestamp |
| BadgeRegistry.BatchRevokeIsSingles | contracts/BadgeRegistry.sol:168-200 | the same for revocations |
| BadgeRegistry.RunKeeps | contracts/BadgeRegistry.sol:105-200 | over any run lists, flags and mappings agree, revoked is within issued, and nothing recorded changes |
| BadgeRegistry.HashIsForever | contracts/BadgeRegistry.sol:232-242 | after a recording, in every later state, verifyHash accepts that hash and no other |
| BadgeRegistry.RevocationIsForever | contracts/BadgeRegistry.sol:304-325 | after a revocation, in every later state, the status is issued and revoked with the times in order |
| BadgeRegistry.ReasonIsForever | contracts/BadgeRegistry.sol:272-281 | after a revocation, in every later state, its reason and time are returned |
| BadgeRegistry.SucceedsExactly | contracts/BadgeRegistry.sol:105-200 | a transaction succeeds exactly if the owner sends it and every badge in it is acceptable, batches included |
| BadgeRegistry.StrangersChangeNothing | contracts/BadgeRegistry.sol:70-73 | over any run, transactions of others than the owner leave the contract as it was |
| BadgeRegistry.OwnersRecord | contracts/BadgeRegistry.sol:105-200 | over any run every new record and revocation stems from a transaction of the owner that names the badge, at its time |
| BadgeRegistry.UnrecordedReads | contracts/BadgeRegistry.sol:232-325 | over any run that does not record a badge, every query says nothing of it |
| BadgeRegistry.RecordedReads | contracts/BadgeRegistry.sol:304-325 | a recorded badge that no later transaction revokes reads as issued with its hash and time and not revoked |
| BadgeRegistry.Contract.RecordOnce | contracts/BadgeRegistry.sol:105-121 | the storage updates are the specified transaction |
| BadgeRegistry.Contract.RevokeOnce | contracts/BadgeRegistry.sol:168-176 | likewise for a revocation |
| BadgeRegistry.Contract.RecordBatch | contracts/BadgeRegistry.sol:128-157 | the loop is all-or-nothing: it reverts exactly when the batch is not acceptable, and then storage is unchanged |
| BadgeRegistry.Contract.RevokeBatch | contracts/BadgeRegistry.sol:183-200 | likewise for revocations |
| PoolGuarantees.RunKeeps | app/internal/worker/pool.go:102-152 | every interleaving keeps the invariant of queue, workers and result channels |
| PoolGuarantees.ExactlyOnce | app/internal/worker/pool.go:102-152 | a submitted job is in exactly one of deciding, refused, queued, in process, answered; its channel gets at most one value, and a closed one the refusal or what its own processing returned |
| PoolGuarantees.ProcessedOnce | app/internal/worker/pool.go:145-149 | a result, once returned, never changes: a job is processed at most once |
| PoolGuarantees.FirstInFirstOut | app/internal/worker/pool.go:145-149 | jobs are served in the order they were accepted and the queue stays within capacity |
| PoolGuarantees.LineKept | app/internal/worker/pool.go:113-122 | callers that have to sleep are let in in the order they came, and before later ones |
| PoolGuarantees.SendNeverBlocks | app/internal/worker/pool.go:147 | a worker about to send its result has room in the channel |
| PoolGuarantees.SubmitNeverStuck | app/internal/worker/pool.go:102-125 | an open pool with room takes a job and does nothing else, a full one puts the caller to sleep, a cancelled one can refuse, and refusals are carried to their end |
| PoolGuarantees.EveryWorkerMoves | app/internal/worker/pool.go:141-152 | every worker can serve whenever a job is queued, and can go on with the one it has whatever its processor returns |
| PoolGuarantees.Progress | app/internal/worker/pool.go:145-149 | in an open or a closed pool, as long as a job is queued or a worker is busy some worker can move |
| PoolGuarantees.WorkersAnswerAll | app/internal/worker/pool.go:141-152 | from every unpanicked state, open or closed, the workers alone answer every accepted and every waiting job within the measure's number of steps |
| PoolGuarantees.StartedPoolAnswers | app/internal/worker/pool.go:63-152 | the same from every state a started pool reaches |
| PoolGuarantees.StartedSizes | app/internal/worker/pool.go:63-96 | the numbers of workers and places a pool starts with |
| PoolGuarantees.StepsUseUpWork | app/internal/worker/pool.go:141-152 | after close every worker step strictly lowers a measure of queued jobs, busy workers and live workers |
| PoolGuarantees.ShutdownProgress | app/internal/worker/pool.go:129-152 | after close, as long as a worker has not exited, some worker step is enabled |
| PoolGuarantees.ShutdownCompletes | app/internal/worker/pool.go:129-137 | from every closed state the workers alone can finish within the measure's number of steps, after which Shutdown can return |
| PoolGuarantees.WorkersMustFinish | app/internal/worker/pool.go:141-152 | no run of worker steps is longer than the measure |
| PoolGuarantees.ShutdownAnswersAll | app/internal/worker/pool.go:129-152 | in any run, when Shutdown has returned every accepted job has its one answer |
| PoolGuarantees.NothingAcceptedLater | app/internal/worker/pool.go:127-137 | no job is accepted once Shutdown has closed the queue |
| PoolGuarantees.PanicExactly | app/internal/worker/pool.go:113-122 | a panic can come next exactly if a Submit has yet to evaluate its select on the closed queue; which steps lead there |
| PoolGuarantees.ParkedIsRefused | app/internal/worker/pool.go:113-132 | a Submit asleep in its select when the context is cancelled is refused and cannot panic |
| PoolGuarantees.NoExposureNoPanic | app/internal/worker/pool.go:113-132 | runs in which that never happens never panic |
| PoolGuarantees.LateSubmitCanPanic | app/internal/worker/pool.go:102-132 | a run of a pool of any size in which a late Submit panics |
| CredentialIds.RecoveredExactly | app/internal/service/verifier.go:166-170 | the last-'/' cut recovers an identifier from its URL exactly if it has no '/' and no "urn:uuid:" prefix |
| CredentialIds.IdsDiffer | app/cmd/server/main.go:356-360 | with years of equal length, equal identifiers come from the same number, whatever '-' the code and the category contain |
| CredentialIds.CollideExactly | app/cmd/server/main.go:360 | two draws give one identifier exactly if code and category texts agree and year and number have the same digits run together |
| CredentialIds.LongYearsCollide | app/cmd/server/main.go:360 | for every number, every year with a digit appended gives an identifier that the year alone gives with a larger number |
| CredentialIds.IssuedIdRecovered | app/internal/service/credential.go:147-151 | for which codes and categories an issued identifier is recovered from its URL |
| CredentialIds.KnownId | app/cmd/server/main.go:360 | a first badge's identifier and URL in full |
| Resolver.ResolveExactly | app/internal/service/did_resolver.go:93-154 | did:web gives the server's own document or a fetched one that is about the DID and has a method, and nothing else |
| Resolver.ResolveFails | app/internal/service/did_resolver.go:93-154 | each of its errors, exactly when |
| Resolver.FallbackExactly | app/internal/service/did_resolver.go:162-223 | the chain is asked only if did:web gives nothing and a contract is named, and gives the key of the credential's second |
| Resolver.TimeBeforeEpoch | app/internal/service/did_resolver.go:162-200 | a time before 1970 wraps around to where only the active key is found |
| Resolver.FallbackDocumentIs | app/internal/service/did_resolver.go:181-200 | the fields of the document made from an on-chain key |
| Resolver.SearchFails | app/internal/service/verifier.go:267-301 | why the search for a key ends without one |
| Resolver.KeyFoundExactly | app/internal/service/verifier.go:267-301 | the search gives a key exactly if some method is the first not skipped and decodes to it |
| Resolver.ExtractPublicKey | app/internal/service/verifier.go:267-301 | the search loop, with each of its errors |
| Resolver.FallbackKey | app/internal/service/did_resolver.go:162-200 | the document made from an on-chain key gives that key back, exactly if the proof names it or names none |
| Credential.SealedFits | app/internal/service/credential.go:95-213 | a finished credential is nested within the limit for every parameter choice |
| Credential.SignBody | app/internal/service/credential.go:175-213 | the proof signs the digest of the meaning of the body; the two ways it can fail |
| Credential.BuildCredential | app/internal/service/credential.go:77-213 | a signer with a key always gets the specified credential, without one always the signing error |
| CredentialContents.TopKeys | app/internal/service/credential.go:154-212 | an issued credential has exactly these eight keys |
| CredentialContents.TopLevel | app/internal/service/credential.go:154-212 | the values under them: contexts, types, URL, issuer, time, subject, fallback and proof |
| CredentialContents.IssuerContents | app/internal/service/credential.go:161-165 | the issuer object in full |
| CredentialContents.FallbackContents | app/internal/service/credential.go:168-172 | the fallback object in full |
| CredentialContents.ProofContents | app/internal/service/credential.go:196-203 | the proof object in full: suite, purpose, key name, time and signature |
| CredentialContents.SubjectContents | app/internal/service/credential.go:122-142 | the recipient is named, and identifier, student and university are there exactly if given |
| CredentialContents.SubjectOptions | app/internal/service/credential.go:130-140 | what is under the optional keys |
| CredentialContents.AchievementContents | app/internal/service/credential.go:99-120 | type, criteria and image of the achievement, category and program exactly if given |
| CredentialContents.ImageURI | app/internal/service/credential.go:334-339 | the image is always a data URI, unchanged if it was one and else marked as PNG |
| Verifier.WithoutProof | app/internal/service/verifier.go:305-315 | the copying loop, in any traversal order, removes exactly the proof |
| Verifier.Canonicalize | app/internal/service/verifier.go:305-325 | the digest of the canonical text of everything but the proof |
| Verifier.VerifyCredential | app/internal/service/verifier.go:64-200 | the report is valid exactly if proof, key, signature, revocation and expiry checks all pass; else its one error is the first failing check; when it panics |
| Verdicts.ExpiryDecides | app/internal/service/verifier.go:185-195 | a genuine unrevoked credential is valid exactly until its expiry, then fails as expired; an unreadable expiry fails |
| Verdicts.WithoutExpiry | app/internal/service/verifier.go:185-195 | without an expiry it is valid |
| Verdicts.ExpiredForEver | app/internal/service/verifier.go:185-195 | once expired a credential is never valid at a later time, whatever resolves and whatever the chain says |
| Verdicts.RevocationDecides | app/internal/service/verifier.go:166-184 | a genuine credential fails if the chain calls it revoked and also if the chain cannot be asked |
| Verdicts.NotAnObject | app/internal/service/verifier.go:64-75 | the verdict on texts that are no JSON object |
| Verdicts.EarlyErrors | app/internal/service/verifier.go:76-98 | the errors on proof and issuer, exactly when |
| Verdicts.ResolutionError | app/internal/service/verifier.go:115-129 | a failing resolution, at the credential's own address and time, ends the verification |
| Verdicts.KeyError | app/internal/service/verifier.go:131-136 | so does a failing search for the key |
| Verdicts.SignatureError | app/internal/service/verifier.go:145-163 | so does a signature that cannot be decoded or that the key rejects |
| Verdicts.TimeRead | app/internal/service/verifier.go:104-122 | the time of the lookup is validFrom, else issuanceDate, else now |
| Verdicts.NoTimeRead | app/internal/service/verifier.go:104-122 | with neither of them the lookup is at the current time |
| IssuedCredential.AnyRenderingReadsBack | app/internal/service/credential.go:77-213 | printed in any style from any value of the same meaning, an issued credential reads back as that meaning |
| IssuedCredential.MeaningRead | app/internal/service/verifier.go:204-264 | what each field reader of the verifier returns on an issued credential |
| EndToEnd.SameBytes | app/internal/service/verifier.go:305-325 | the verifier digests exactly the bytes that were signed |
| EndToEnd.IssuedSays | app/internal/service/credential.go:77-213 | what an issued credential denotes says everything a verifier reads, and its proof is the signer's signature of the rest |
| EndToEnd.BuiltRenders | app/internal/service/credential.go:77-213 | every JSON text made of the built credential, by any printer and in any key order, renders it |
| EndToEnd.GenuineExactly | app/internal/service/verifier.go:116-162 | an issued credential passes the key and signature checks exactly if the key that resolution gives accepts its signature; no law of the scheme |
| EndToEnd.IssuedVerdict | app/internal/service/verifier.go:64-200 | in any JSON text, an issued credential is valid with no errors exactly if the resolved key accepts its signature and it is not reported revoked; with a correct scheme the signer's key suffices, and it is needed unless the resolved key accepts this signature of another |
| EndToEnd.TamperingDetected | app/internal/service/verifier.go:116-162 | a text carrying an issued proof is genuine exactly if the signer's key accepts that signature on it; barring a forgery between the two texts at hand, exactly if everything beside the proof means what was signed |
| EndToEnd.LongTermFallback | app/internal/service/did_resolver.go:162-223 | with did:web gone, a badge signed by the key active at its second resolves to that key after any later transactions, exactly if its proof names the fallback key or none |
| EndToEnd.LongTermVerdict | app/internal/service/verifier.go:64-200 | such a badge is valid for ever unless reported revoked, with a correct scheme |
| EndToEnd.LiveDocumentDecides | app/internal/service/did_resolver.go:204-223 | while did:web answers, a badge is valid exactly if the live document's key accepts its signature; otherwise the error is the signature mismatch |
| EndToEnd.RotationBreaksLiveVerification | docs/did-design.md:52 | after a rotation to a key that does not accept the badge's signature every verdict is the signature mismatch while did:web answers, and valid without it |
| EndToEnd.RevokedExactly | app/internal/service/verifier.go:166-184 | with a key that accepts the signature a badge fails exactly if the contract lists its looked-up identifier, and for that reason alone |
| EndToEnd.RevocationStopsVerification | contracts/BadgeRegistry.sol:168-176 | a badge revoked on-chain is never valid again, after any later transactions, whatever resolves and with no law of the scheme |
| EndToEnd.OwnRevocationExactly | app/internal/service/verifier.go:166-184 | revoking a badge's own identifier stops it exactly if the identifier has no '/' and is no UUID URN |
| Reissue.ExtractorsInvert | app/internal/handler/credential.go:332-365 | the extractors recover the builder's parameters from every issued credential, whichever are empty |
| Reissue.IssueBadge | app/cmd/server/main.go:345-472 | the credential and the row of an issue, and its errors |
| Reissue.ReissueBadge | app/internal/handler/credential.go:95-248 | the credential and the row of a reissue, and its errors in order |
| IssuedBadges.IssueSaysRequest | app/cmd/server/main.go:356-392 | everything requested stands in the issued credential in its own place |
| IssuedBadges.IssueDatedAndSigned | app/internal/service/credential.go:88-205 | it bears the time of the call and is signed by the key at hand |
| IssuedBadges.RowSaysText | app/cmd/server/main.go:399-418 | the saved row agrees with the saved text column by column, and its hash is that of the text |
| IssuedBadges.RowSaysAddress | app/cmd/server/main.go:399-418 | the row bears the requested address, which the text leaves out |
| IssuedBadges.LinkedExactly | app/cmd/server/main.go:440-451 | a badge is linked exactly to a given achievement that is a UUID |
| IssuedBadges.StoredExactly | app/internal/handler/credential.go:137-142 | a stored text is read as an object, or as the empty one if it is null |
| IssuedBadges.ReissueRecipient | app/internal/handler/credential.go:162-170 | who a reissue is for |
| IssuedBadges.ReportSaysIssue | app/internal/service/verifier.go:93-110 | the report names issuer, recipient, achievement and time as issued |
| ReissueChain.WrittenFaithful | app/internal/handler/credential.go:194-230 | the server's rows and texts read back as what was issued, and depend on identifiers, image, time and proof only where they should |
| ReissueChain.StepRebuilds | app/internal/handler/credential.go:137-192 | a reissue rebuilds every parameter except the identifier, the image and the linked achievement |
| ReissueChain.ReissuesKeep | app/internal/handler/credential.go:137-230 | any number of reissues, with any keys, changes only identifier, image, time, proof and achievement identifier |
| ReissueChain.ServerReissuesKeep | app/internal/handler/credential.go:137-230 | the same of what the server itself writes |
| ReissueChain.AchievementKeptExactly | app/internal/handler/credential.go:190-192 | when a reissue keeps the achievement identifier |
| ReissueChain.CapitalsAreLost | app/cmd/server/main.go:440-451 | a run that issues a badge with a UUID in capitals and reissues it with another achievement identifier |
| Issuance.IdsNeverCollide | app/internal/repository/badge_repo.go:468-472 | no two draws, by issues or reissues, give the same identifier |
| Issuance.StepKeeps | app/cmd/server/main.go:345-504 | every step of issue, record, reissue, revoke, mining, failure or crash keeps the invariant and undoes nothing |
| Issuance.DatabaseAndChainAgree | app/internal/handler/credential.go:262-328 | in every reachable state chain-revoked implies chain-issued and a revoked row; a row with a transaction hash has its hash on-chain; no reissue is on-chain; identifiers are distinct |
| Issuance.NothingUndone | app/internal/repository/badge_repo.go:229-253 | a row keeps its hash and its revocation, the chain its entries, through any later run |
| Issuance.RevokedOnChainExactly | contracts/BadgeRegistry.sol:348-358 | a badge is revoked on-chain exactly if a recording of it was mined and a revocation of it after that |
| Issuance.MinedRevocationExactly | contracts/BadgeRegistry.sol:168-176 | a revocation that is mined takes effect exactly if the badge is recorded on-chain by then |
| Issuance.RevokingAfterRecording | app/internal/handler/credential.go:309-319 | once the recording is known to be mined, a badge is revoked on-chain in any later state exactly if it was before or a revocation has been mined since |
| Issuance.RevocationCanBeLost | app/internal/handler/credential.go:309-319 | a finished run with a row revoked, recorded on-chain and not revoked there: the revocation was refused before the recording was mined |
| Issuance.ReissueRevokedInVain | app/internal/handler/credential.go:194-248 | from every reachable state with a badge, a run that reissues it and revokes the reissue, and leaves the chain as it was |
| Issuance.ReissuesStayOffChain | app/internal/handler/credential.go:238-243 | an identifier drawn by a reissue is never issued or revoked on-chain |
| IssuanceProgress.TakenExactly | app/internal/handler/credential.go:281-300 | which requests to revoke and to reissue are taken |
| IssuanceProgress.RevocationGoesThrough | app/internal/handler/credential.go:302-319 | from every reachable state, every recorded badge that is not revoked can be revoked in the database and on-chain, for the given reason |
| IssuanceProgress.IssueGoesThrough | app/cmd/server/main.go:345-504 | from every reachable state, the next badge can be saved, recorded with its hash and marked |
| IssuanceProgress.SmoothRevocationArrives | app/internal/handler/credential.go:302-319 | in every run without failures, a requested revocation of a recorded badge is on-chain once nothing is left to happen |
| IssuanceProgress.SmoothIssuesArrive | app/cmd/server/main.go:345-504 | in every run without failures, every badge is saved, and every new one recorded and marked, once nothing is left to happen |
| Lifecycle.VerdictFollowsMinedOrder | app/internal/service/verifier.go:166-184 | against the chain of any reachable state, a resolvable badge is valid exactly unless a recording followed by a revocation of it was mined |
| Lifecycle.RejectedMeansRevoked | app/internal/handler/credential.go:301-321 | a badge the verifier rejects as revoked is revoked in the database |
| Lifecycle.RevokedAfterRecordingIsRejected | app/internal/service/verifier.go:166-184 | a badge whose recording was known to be mined is not valid once a later revocation is mined |
| Lifecycle.ReissuedCannotBeRevoked | app/internal/handler/credential.go:236-243 | a reissued badge is reported valid in every reachable state, whatever its row says |
| Lifecycle.RevokedReissueStaysValid | app/internal/handler/credential.go:236-328 | a run to such a state: the reissue's row is revoked and its text still valid |
| Witness.HypothesesHold | app/internal/service/verifier.go:64-200 | for every badge and ledger, a correct suite of fixed lengths, a text, a resolver with the signer's key and a verdict meet the hypotheses on verdicts, tampering and revocation |
| Witness.LongTermHypothesesHold | app/internal/service/did_resolver.go:162-223 | the same with did:web gone and a registry that had the signer's key at the issue second, after any later transactions |
| Witness.LifecycleHypothesesHold | app/internal/handler/credential.go:95-328 | the same in a reachable quiet state of the server, with a reissue of a saved badge to come |

## Left out

- HTTP handlers, routing, middleware, response envelopes, logging, configuration loading and pagination.
- The fetch of a DID document and the URL built from a DID: resolution takes the fetched document, or its absence, as an input.
- ABI encoding, gas, event emission and RPC of the contract clients; in Issuance a transaction may be lost, delayed or mined in any order, which covers more runs than nonces allow.
- Transfer of contract ownership in BadgeRegistry; the server is the only owner there. KeyRegistry has it.
- The inside of SHA-256, Ed25519, UUID generation and RFC 3339: they are parameters. That forging is hard is not modelled: where a rejection depends on it, the one signature and the two texts concerned are named in the hypothesis.
- Grammar.ParsesExactly: does not model that encoding/json refuses numbers beyond the range of float64, because numbers are kept as their text.
- Renumbering of JSON numbers through float64: a number token prints and parses as itself. Credentials made by the builder have no numbers.
- Text as bytes: text is a sequence of Unicode scalar values, whose order is that of their UTF-8 bytes; invalid UTF-8 is not modelled, and only the Base58 buffer's size uses the UTF-8 length.
- Widths of Go's integers in lengths and counters; block timestamps and Unix times are unbounded, except that a Unix time becomes a uint256 modulo 2^256.
- Fractions of a second: all times are whole seconds.
- Years before 1 and sequence numbers below 1, which the clock and the sequence do not give; Issuance assumes four-digit years, and LongYearsCollide shows why.
- The parsing of hexadecimal text in the Python command line: keys are 32 bytes there too.
- A second call of Shutdown, processors registered after Start, and processors that panic or never return; a processor may return any result at any time.
- The parsed credential inside the verification report, the verification log, DownloadBadge, listing of badges and key history, and the synchronous issue handler, which no route uses.
- The fields of DID documents that no check reads (context, assertionMethod, service).
- SetLocalDIDDocument: the local document is part of the resolver's value.
- Reuse of request buffers by the web framework after a handler returns: the revocation goroutine is modelled with its own copy of the identifier.
- Growing of Go byte buffers in the printers and in base58Encode before its reversal: append makes a longer value there. The reversal, base58Decode's buffer and the contracts' storage are updated in place.
