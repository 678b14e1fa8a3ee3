/** The verifier's answer about a badge, from the run of the server that issued it. */
module Lifecycle {
  import opened CredentialIds
  import opened Credential
  import opened IssuedCredential
  import opened EndToEnd
  import opened Issuance
  import V = Verifier
  import B = BadgeRegistry

  /** The verifier finds a badge by the identifier it was issued under. */
  predicate Findable(i: Issue) {
    var id := CredentialId(i.p, i.uuids);
    id != "" && '/' !in id && !(URN_UUID <= id)
  }

  lemma FoundById(i: Issue)
    requires Findable(i)
    ensures LookedUpId(i) == CredentialId(i.p, i.uuids)
  {
    RecoveredExactly(i.p.serverURL, CredentialId(i.p, i.uuids));
  }

  /** Main theorem.  Against the chain of any reachable state, a badge whose resolved key accepts its
      signature is reported valid unless, among the mined transactions, a recording of it is followed
      by a revocation of it: the status in the database plays no part. */
  lemma VerdictFollowsMinedOrder(env: V.Environment, text: string, m: V.Object, i: Issue, v: V.Verdict,
                                 chain: bool, owner: B.Address, steps: seq<Step>, s: State)
    requires Renders(env, text, m, i) && i.p.issuerDID != "" && V.IsVerdict(env, text, v) && KeyAccepted(env, m, i)
    requires Findable(i) && Reaches(Start(chain, owner), steps, s) && ChecksLedger(env, s.ledger)
    ensures v.Finished?
    ensures v.report.valid <==> !RevokedAfterRecord(s.mined, CredentialId(i.p, i.uuids))
  {
    FoundById(i);
    RevokedOnChainExactly(chain, owner, steps, s, CredentialId(i.p, i.uuids));
    RevokedExactly(env, text, m, i, s.ledger, v);
  }

  /** A badge that the verifier rejects as revoked is revoked in the database too. */
  lemma RejectedMeansRevoked(env: V.Environment, text: string, m: V.Object, i: Issue, v: V.Verdict,
                             chain: bool, owner: B.Address, steps: seq<Step>, s: State)
    requires Renders(env, text, m, i) && i.p.issuerDID != "" && V.IsVerdict(env, text, v) && KeyAccepted(env, m, i)
    requires Findable(i) && Reaches(Start(chain, owner), steps, s) && ChecksLedger(env, s.ledger)
    ensures v.Finished?
    ensures !v.report.valid ==> RowRevoked(s.rows, CredentialId(i.p, i.uuids))
  {
    FoundById(i);
    DatabaseAndChainAgree(chain, owner, steps, s);
    RevokedExactly(env, text, m, i, s.ledger, v);
  }

  /** A badge whose recording was mined stops verifying once a revocation of it is mined: the order
      a caller can make sure of. */
  lemma RevokedAfterRecordingIsRejected(env: V.Environment, text: string, m: V.Object, i: Issue, v: V.Verdict,
                                        chain: bool, owner: B.Address, steps: seq<Step>, s: State, more: seq<Step>, last: State, k: nat)
    requires Renders(env, text, m, i) && i.p.issuerDID != "" && V.IsVerdict(env, text, v)
    requires Findable(i) && Reaches(Start(chain, owner), steps, s) && Reaches(s, more, last) && ChecksLedger(env, last.ledger)
    requires RecordingMined(s, CredentialId(i.p, i.uuids))
    requires |s.mined| <= k < |last.mined| && Revokes(last.mined[k], CredentialId(i.p, i.uuids))
    ensures !(v.Finished? && v.report.valid)
  {
    FoundById(i);
    RevokingAfterRecording(chain, owner, steps, s, more, last, CredentialId(i.p, i.uuids));
    RevocationRead(env, m, i, last.ledger);
    IssuedVerdict(env, text, m, i, v);
  }

  /** A reissued badge is never recorded on-chain, so revoking it never reaches the verifier: it
      goes on being reported valid in every reachable state. */
  lemma ReissuedCannotBeRevoked(env: V.Environment, text: string, m: V.Object, i: Issue, v: V.Verdict,
                                chain: bool, owner: B.Address, steps: seq<Step>, s: State, g: nat)
    requires Renders(env, text, m, i) && i.p.issuerDID != "" && V.IsVerdict(env, text, v) && KeyAccepted(env, m, i)
    requires Findable(i) && Reaches(Start(chain, owner), steps, s) && ChecksLedger(env, s.ledger)
    requires g < |s.drawn| && s.drawn[g].kind == Again && s.drawn[g].id == CredentialId(i.p, i.uuids)
    ensures v.Finished? && v.report.valid
  {
    ReissueNeverRevoked(chain, owner, steps, s, g);
    VerdictFollowsMinedOrder(env, text, m, i, v, chain, owner, steps, s);
  }

  /** A run in which that happens, from any reachable state with a badge to reissue: the reissue is
      revoked in the database, nothing new is left to happen, and its text is still valid. */
  lemma RevokedReissueStaysValid(env: V.Environment, text: string, m: V.Object, i: Issue, v: V.Verdict,
                                 chain: bool, owner: B.Address, before: seq<Step>, s: State, source: string, d: Drawn, reason: string)
    returns (steps: seq<Step>, last: State)
    requires Renders(env, text, m, i) && i.p.issuerDID != "" && V.IsVerdict(env, text, v) && KeyAccepted(env, m, i)
    requires Findable(i) && Reaches(Start(chain, owner), before, s) && s.chain && source in s.rows && ChecksLedger(env, s.ledger)
    requires MadeFrom(d) && d.number == s.counter + 1 && d.kind == Again && d.id == CredentialId(i.p, i.uuids) && reason != ""
    ensures Reaches(Start(chain, owner), steps, last) && (Quiet(s) ==> Quiet(last)) && ChecksLedger(env, last.ledger)
    ensures RowRevoked(last.rows, d.id) && v.Finished? && v.report.valid
  {
    steps, last := ReissueRevokedInVain(chain, owner, before, s, source, d, reason);
    ReissuedCannotBeRevoked(env, text, m, i, v, chain, owner, steps, last, |s.drawn|);
  }
}
