/** The BadgeRegistry contract: hashes of issued badges, revocations, and the batch forms. */
module BadgeRegistry {
  import opened Wrappers

  type Address = nat
  type Hash = nat // a bytes32 read as an integer

  datatype Issuance = Issuance(credentialId: string, badgeHash: Hash, issuedAt: nat)
  datatype Revocation = Revocation(credentialId: string, reason: string, revokedAt: nat)

  /** The storage: two mappings, the two flags beside them as the sets of flagged IDs, and the
      two lists. */
  datatype Ledger = Ledger(
    owner: Address,
    issuances: map<string, Issuance>,
    isIssued: set<string>,
    issuedBadges: seq<string>,
    revocations: map<string, Revocation>,
    isRevoked: set<string>,
    revokedBadges: seq<string>)

  datatype Call =
    | RecordIssuance(id: string, hash: Hash)
    | BatchRecordIssuance(ids: seq<string>, hashes: seq<Hash>)
    | RevokeBadge(id: string, reason: string)
    | BatchRevoke(ids: seq<string>, reason: string)

  datatype Transaction = Transaction(now: nat, caller: Address, call: Call)

  // ----- the transactions; None is a revert

  function Record(l: Ledger, id: string, hash: Hash, now: nat): Option<Ledger> {
    if id in l.isIssued || hash == 0 then None else
      Some(l.(
        isIssued := l.isIssued + {id},
        issuances := l.issuances[id := Issuance(id, hash, now)],
        issuedBadges := l.issuedBadges + [id]))
  }

  function Revoke(l: Ledger, id: string, reason: string, now: nat): Option<Ledger> {
    if id !in l.isIssued || id in l.isRevoked then None else
      Some(l.(
        isRevoked := l.isRevoked + {id},
        revocations := l.revocations[id := Revocation(id, reason, now)],
        revokedBadges := l.revokedBadges + [id]))
  }

  function RecordAll(l: Ledger, ids: seq<string>, hashes: seq<Hash>, now: nat): Option<Ledger>
    requires |ids| == |hashes|
  {
    if ids == [] then Some(l)
    else match RecordAll(l, ids[..|ids| - 1], hashes[..|ids| - 1], now)
      case None => None
      case Some(before) => Record(before, ids[|ids| - 1], hashes[|ids| - 1], now)
  }

  function RevokeAll(l: Ledger, ids: seq<string>, reason: string, now: nat): Option<Ledger> {
    if ids == [] then Some(l)
    else match RevokeAll(l, ids[..|ids| - 1], reason, now)
      case None => None
      case Some(before) => Revoke(before, ids[|ids| - 1], reason, now)
  }

  function Apply(l: Ledger, t: Transaction): Option<Ledger> {
    if t.caller != l.owner then None
    else match t.call
      case RecordIssuance(id, hash) => Record(l, id, hash, t.now)
      case BatchRecordIssuance(ids, hashes) =>
        if ids == [] || |ids| != |hashes| then None else RecordAll(l, ids, hashes, t.now)
      case RevokeBadge(id, reason) => Revoke(l, id, reason, t.now)
      case BatchRevoke(ids, reason) => if ids == [] then None else RevokeAll(l, ids, reason, t.now)
  }

  function Execute(l: Ledger, t: Transaction): Ledger {
    match Apply(l, t) case Some(next) => next case None => l
  }

  function Run(l: Ledger, ts: seq<Transaction>): Ledger
    decreases |ts|
  {
    if ts == [] then l else Run(Execute(l, ts[0]), ts[1..])
  }

  predicate Timely(start: nat, ts: seq<Transaction>)
    decreases |ts|
  {
    ts == [] || (start <= ts[0].now && Timely(ts[0].now, ts[1..]))
  }

  function Deployed(owner: Address): Ledger {
    Ledger(owner, map[], {}, [], map[], {}, [])
  }

  // ----- when a batch succeeds, and what it does

  ghost predicate Distinct(ids: seq<string>) {
    forall i, j :: 0 <= i < j < |ids| ==> ids[i] != ids[j]
  }

  ghost predicate CanRecord(l: Ledger, ids: seq<string>, hashes: seq<Hash>)
    requires |ids| == |hashes|
  {
    Distinct(ids) && forall i :: 0 <= i < |ids| ==> ids[i] !in l.isIssued && hashes[i] != 0
  }

  ghost predicate CanRevoke(l: Ledger, ids: seq<string>) {
    Distinct(ids) && forall i :: 0 <= i < |ids| ==> ids[i] in l.isIssued && ids[i] !in l.isRevoked
  }

  /** The ledger after a successful batch, said directly: exactly the new IDs are added, each
      with its own hash, all at one time. */
  ghost predicate Recorded(l: Ledger, ids: seq<string>, hashes: seq<Hash>, now: nat, next: Ledger)
    requires |ids| == |hashes|
  {
    && next == l.(isIssued := next.isIssued, issuances := next.issuances, issuedBadges := l.issuedBadges + ids)
    && (forall id :: id in next.isIssued <==> id in l.isIssued || id in ids)
    && (forall id :: id in next.issuances <==> id in l.issuances || id in ids)
    && (forall i :: 0 <= i < |ids| ==> next.issuances[ids[i]] == Issuance(ids[i], hashes[i], now))
    && (forall id :: id in l.issuances && id !in ids ==> next.issuances[id] == l.issuances[id])
  }

  ghost predicate RevokedThese(l: Ledger, ids: seq<string>, reason: string, now: nat, next: Ledger) {
    && next == l.(isRevoked := next.isRevoked, revocations := next.revocations, revokedBadges := l.revokedBadges + ids)
    && (forall id :: id in next.isRevoked <==> id in l.isRevoked || id in ids)
    && (forall id :: id in next.revocations <==> id in l.revocations || id in ids)
    && (forall id :: id in ids ==> next.revocations[id] == Revocation(id, reason, now))
    && (forall id :: id in l.revocations && id !in ids ==> next.revocations[id] == l.revocations[id])
  }

  lemma RecordOne(l: Ledger, ids: seq<string>, hashes: seq<Hash>, now: nat, mid: Ledger, id: string, hash: Hash)
    requires |ids| == |hashes| && CanRecord(l, ids, hashes) && Recorded(l, ids, hashes, now, mid)
    ensures Record(mid, id, hash, now).Some? <==> CanRecord(l, ids + [id], hashes + [hash])
    ensures Record(mid, id, hash, now).Some? ==>
      Recorded(l, ids + [id], hashes + [hash], now, Record(mid, id, hash, now).value)
  {
    var more, moreHashes := ids + [id], hashes + [hash];
    assert forall x :: x in more <==> x in ids || x == id;
    if id in ids {
      var k :| 0 <= k < |ids| && ids[k] == id;
      assert more[k] == more[|ids|];
    }
    assert CanRecord(l, more, moreHashes) ==> more[|ids|] !in l.isIssued && moreHashes[|ids|] != 0;
  }

  /** A batch of recordings succeeds exactly when its IDs are distinct and new and no hash is
      zero; then it adds exactly these entries. */
  lemma {:induction false} RecordAllExactly(l: Ledger, ids: seq<string>, hashes: seq<Hash>, now: nat)
    requires |ids| == |hashes|
    ensures RecordAll(l, ids, hashes, now).Some? <==> CanRecord(l, ids, hashes)
    ensures RecordAll(l, ids, hashes, now).Some? ==> Recorded(l, ids, hashes, now, RecordAll(l, ids, hashes, now).value)
  {
    if ids == [] {
      assert Recorded(l, ids, hashes, now, l);
    } else {
      var n := |ids| - 1;
      var init, initHashes := ids[..n], hashes[..n];
      RecordAllExactly(l, init, initHashes, now);
      assert ids == init + [ids[n]] && hashes == initHashes + [hashes[n]];
      if RecordAll(l, init, initHashes, now).Some? {
        RecordOne(l, init, initHashes, now, RecordAll(l, init, initHashes, now).value, ids[n], hashes[n]);
      } else {
        assert forall i :: 0 <= i < n ==> init[i] == ids[i] && initHashes[i] == hashes[i];
      }
    }
  }

  lemma RevokeOne(l: Ledger, ids: seq<string>, reason: string, now: nat, mid: Ledger, id: string)
    requires CanRevoke(l, ids) && RevokedThese(l, ids, reason, now, mid)
    ensures Revoke(mid, id, reason, now).Some? <==> CanRevoke(l, ids + [id])
    ensures Revoke(mid, id, reason, now).Some? ==> RevokedThese(l, ids + [id], reason, now, Revoke(mid, id, reason, now).value)
  {
    var more := ids + [id];
    assert forall x :: x in more <==> x in ids || x == id;
    if id in ids {
      var k :| 0 <= k < |ids| && ids[k] == id;
      assert more[k] == more[|ids|];
    }
    assert CanRevoke(l, more) ==> more[|ids|] in l.isIssued && more[|ids|] !in l.isRevoked;
  }

  lemma {:induction false} RevokeAllExactly(l: Ledger, ids: seq<string>, reason: string, now: nat)
    ensures RevokeAll(l, ids, reason, now).Some? <==> CanRevoke(l, ids)
    ensures RevokeAll(l, ids, reason, now).Some? ==> RevokedThese(l, ids, reason, now, RevokeAll(l, ids, reason, now).value)
  {
    if ids == [] {
      assert RevokedThese(l, ids, reason, now, l);
    } else {
      var n := |ids| - 1;
      var init := ids[..n];
      RevokeAllExactly(l, init, reason, now);
      assert ids == init + [ids[n]];
      if RevokeAll(l, init, reason, now).Some? {
        RevokeOne(l, init, reason, now, RevokeAll(l, init, reason, now).value, ids[n]);
      } else {
        assert forall i :: 0 <= i < n ==> init[i] == ids[i];
      }
    }
  }

  /** The single calls a batch stands for. */
  function Singles(ids: seq<string>, hashes: seq<Hash>, now: nat, caller: Address): seq<Transaction>
    requires |ids| == |hashes|
  {
    seq(|ids|, i requires 0 <= i < |ids| => Transaction(now, caller, RecordIssuance(ids[i], hashes[i])))
  }

  /** A batch that succeeds is the single calls in order at the same time. */
  lemma {:induction false} BatchIsSingles(l: Ledger, ids: seq<string>, hashes: seq<Hash>, now: nat)
    requires |ids| == |hashes| && RecordAll(l, ids, hashes, now).Some?
    ensures Run(l, Singles(ids, hashes, now, l.owner)) == RecordAll(l, ids, hashes, now).value
    ensures RecordAll(l, ids, hashes, now).value.owner == l.owner
  {
    if ids != [] {
      var n := |ids| - 1;
      BatchIsSingles(l, ids[..n], hashes[..n], now);
      var singles := Singles(ids, hashes, now, l.owner);
      assert singles == Singles(ids[..n], hashes[..n], now, l.owner) + [singles[n]];
      RunAppend(l, singles[..n], singles[n]);
      assert singles[..n] == Singles(ids[..n], hashes[..n], now, l.owner);
    }
  }

  function SingleRevokes(ids: seq<string>, reason: string, now: nat, caller: Address): seq<Transaction> {
    seq(|ids|, i requires 0 <= i < |ids| => Transaction(now, caller, RevokeBadge(ids[i], reason)))
  }

  lemma {:induction false} BatchRevokeIsSingles(l: Ledger, ids: seq<string>, reason: string, now: nat)
    requires RevokeAll(l, ids, reason, now).Some?
    ensures Run(l, SingleRevokes(ids, reason, now, l.owner)) == RevokeAll(l, ids, reason, now).value
    ensures RevokeAll(l, ids, reason, now).value.owner == l.owner
  {
    if ids != [] {
      var n := |ids| - 1;
      BatchRevokeIsSingles(l, ids[..n], reason, now);
      var singles := SingleRevokes(ids, reason, now, l.owner);
      RunAppend(l, singles[..n], singles[n]);
      assert singles[..n] == SingleRevokes(ids[..n], reason, now, l.owner);
      assert singles == singles[..n] + [singles[n]];
    }
  }

  lemma {:induction false} RunAppend(l: Ledger, ts: seq<Transaction>, t: Transaction)
    ensures Run(l, ts + [t]) == Execute(Run(l, ts), t)
    decreases |ts|
  {
    if ts == [] {
      assert [] + [t] == [t];
    } else {
      assert (ts + [t])[1..] == ts[1..] + [t];
      RunAppend(Execute(l, ts[0]), ts[1..], t);
    }
  }

  // ----- what every reachable ledger satisfies

  /** A list without duplicates that holds exactly the members of a set. */
  ghost predicate Lists(ids: seq<string>, members: set<string>) {
    Distinct(ids) && forall id :: id in ids <==> id in members
  }

  ghost predicate Consistent(l: Ledger) {
    && Lists(l.issuedBadges, l.isIssued) && Lists(l.revokedBadges, l.isRevoked)
    && l.issuances.Keys == l.isIssued && l.revocations.Keys == l.isRevoked
    && l.isRevoked <= l.isIssued
    && (forall id :: id in l.issuances ==> l.issuances[id].credentialId == id && l.issuances[id].badgeHash != 0)
    && (forall id :: id in l.revocations ==> l.revocations[id].credentialId == id)
    && (forall id :: id in l.revocations ==> id in l.issuances && l.issuances[id].issuedAt <= l.revocations[id].revokedAt)
  }

  ghost predicate Stamped(l: Ledger, now: nat) {
    forall id :: id in l.issuances ==> l.issuances[id].issuedAt <= now
  }

  /** Everything recorded or revoked in l is so, unchanged, in later. */
  ghost predicate Preserved(l: Ledger, later: Ledger) {
    && l.owner == later.owner
    && l.isIssued <= later.isIssued && l.isRevoked <= later.isRevoked
    && (forall id :: id in l.issuances ==> id in later.issuances && later.issuances[id] == l.issuances[id])
    && (forall id :: id in l.revocations ==> id in later.revocations && later.revocations[id] == l.revocations[id])
  }

  lemma RecordKeeps(l: Ledger, id: string, hash: Hash, now: nat)
    requires Consistent(l) && Stamped(l, now) && Record(l, id, hash, now).Some?
    ensures Consistent(Record(l, id, hash, now).value) && Stamped(Record(l, id, hash, now).value, now)
    ensures Preserved(l, Record(l, id, hash, now).value)
  {
  }

  lemma RevokeKeeps(l: Ledger, id: string, reason: string, now: nat)
    requires Consistent(l) && Stamped(l, now) && Revoke(l, id, reason, now).Some?
    ensures Consistent(Revoke(l, id, reason, now).value) && Stamped(Revoke(l, id, reason, now).value, now)
    ensures Preserved(l, Revoke(l, id, reason, now).value)
  {
  }

  lemma {:induction false} RecordAllKeeps(l: Ledger, ids: seq<string>, hashes: seq<Hash>, now: nat)
    requires |ids| == |hashes| && Consistent(l) && Stamped(l, now) && RecordAll(l, ids, hashes, now).Some?
    ensures Consistent(RecordAll(l, ids, hashes, now).value) && Stamped(RecordAll(l, ids, hashes, now).value, now)
    ensures Preserved(l, RecordAll(l, ids, hashes, now).value)
  {
    if ids != [] {
      var n := |ids| - 1;
      RecordAllKeeps(l, ids[..n], hashes[..n], now);
      RecordKeeps(RecordAll(l, ids[..n], hashes[..n], now).value, ids[n], hashes[n], now);
    }
  }

  lemma {:induction false} RevokeAllKeeps(l: Ledger, ids: seq<string>, reason: string, now: nat)
    requires Consistent(l) && Stamped(l, now) && RevokeAll(l, ids, reason, now).Some?
    ensures Consistent(RevokeAll(l, ids, reason, now).value) && Stamped(RevokeAll(l, ids, reason, now).value, now)
    ensures Preserved(l, RevokeAll(l, ids, reason, now).value)
  {
    if ids != [] {
      var n := |ids| - 1;
      RevokeAllKeeps(l, ids[..n], reason, now);
      RevokeKeeps(RevokeAll(l, ids[..n], reason, now).value, ids[n], reason, now);
    }
  }

  lemma StepKeeps(l: Ledger, t: Transaction)
    requires Consistent(l) && Stamped(l, t.now)
    ensures Consistent(Execute(l, t)) && Stamped(Execute(l, t), t.now) && Preserved(l, Execute(l, t))
  {
    if Apply(l, t).Some? {
      match t.call
      case RecordIssuance(id, hash) => RecordKeeps(l, id, hash, t.now);
      case BatchRecordIssuance(ids, hashes) => RecordAllKeeps(l, ids, hashes, t.now);
      case RevokeBadge(id, reason) => RevokeKeeps(l, id, reason, t.now);
      case BatchRevoke(ids, reason) => RevokeAllKeeps(l, ids, reason, t.now);
    }
  }

  /** Over any run both lists, flags and mappings agree, and nothing recorded is ever changed. */
  lemma {:induction false} RunKeeps(l: Ledger, start: nat, ts: seq<Transaction>)
    requires Consistent(l) && Stamped(l, start) && Timely(start, ts)
    ensures Consistent(Run(l, ts)) && Preserved(l, Run(l, ts))
    decreases |ts|
  {
    if ts != [] {
      StepKeeps(l, ts[0]);
      RunKeeps(Execute(l, ts[0]), ts[0].now, ts[1..]);
    }
  }

  // ----- the queries

  datatype Status = Status(issued: bool, revoked: bool, badgeHash: Hash, issuedAt: nat, revokedAt: nat)

  function VerifyHash(l: Ledger, id: string, hash: Hash): (bool, nat)
    requires Consistent(l)
  {
    if id !in l.isIssued then (false, 0) else (l.issuances[id].badgeHash == hash, l.issuances[id].issuedAt)
  }

  function BadgeStatus(l: Ledger, id: string): Status
    requires Consistent(l)
  {
    Status(
      id in l.isIssued, id in l.isRevoked,
      if id in l.isIssued then l.issuances[id].badgeHash else 0,
      if id in l.isIssued then l.issuances[id].issuedAt else 0,
      if id in l.isRevoked then l.revocations[id].revokedAt else 0)
  }

  /** From a successful recording on, in every later state, the hash query accepts the recorded
      hash and no other, and reports the time of the recording. */
  lemma HashIsForever(l: Ledger, id: string, hash: Hash, now: nat, ts: seq<Transaction>, other: Hash)
    requires Consistent(l) && Stamped(l, now) && Timely(now, ts)
    requires Record(l, id, hash, now).Some?
    ensures Consistent(Run(Record(l, id, hash, now).value, ts))
    ensures VerifyHash(Run(Record(l, id, hash, now).value, ts), id, other) == (other == hash, now)
  {
    RecordKeeps(l, id, hash, now);
    RunKeeps(Record(l, id, hash, now).value, now, ts);
  }

  /** From a successful revocation on, in every later state, the badge is reported as issued with
      its own hash and as revoked at the time of the revocation, not before it was issued. */
  lemma RevocationIsForever(l: Ledger, id: string, reason: string, now: nat, ts: seq<Transaction>)
    requires Consistent(l) && Stamped(l, now) && Timely(now, ts)
    requires Revoke(l, id, reason, now).Some?
    ensures Consistent(Run(Revoke(l, id, reason, now).value, ts))
    ensures var s := BadgeStatus(Run(Revoke(l, id, reason, now).value, ts), id);
      s.issued && s.revoked && s.revokedAt == now && s.issuedAt <= now && s.badgeHash == l.issuances[id].badgeHash != 0
  {
    RevokeKeeps(l, id, reason, now);
    RunKeeps(Revoke(l, id, reason, now).value, now, ts);
  }

  // ----- who may change it, and what a change does

  /** The call is one the contract accepts from its owner in this state. */
  ghost predicate Acceptable(l: Ledger, call: Call) {
    match call
    case RecordIssuance(id, hash) => id !in l.isIssued && hash != 0
    case BatchRecordIssuance(ids, hashes) => ids != [] && |ids| == |hashes| && CanRecord(l, ids, hashes)
    case RevokeBadge(id, _) => id in l.isIssued && id !in l.isRevoked
    case BatchRevoke(ids, _) => ids != [] && CanRevoke(l, ids)
  }

  /** A transaction succeeds exactly if the owner sends it and the call is acceptable. */
  lemma SucceedsExactly(l: Ledger, t: Transaction)
    ensures Apply(l, t).Some? <==> t.caller == l.owner && Acceptable(l, t.call)
    ensures t.caller != l.owner ==> Execute(l, t) == l
  {
    match t.call
    case BatchRecordIssuance(ids, hashes) =>
      if |ids| == |hashes| {
        RecordAllExactly(l, ids, hashes, t.now);
      }
    case BatchRevoke(ids, reason) => RevokeAllExactly(l, ids, reason, t.now);
    case _ =>
  }

  /** Transactions of strangers leave the contract as it was, over any run. */
  lemma {:induction false} StrangersChangeNothing(l: Ledger, ts: seq<Transaction>)
    requires forall n :: 0 <= n < |ts| ==> ts[n].caller != l.owner
    ensures Run(l, ts) == l
    decreases |ts|
  {
    if ts != [] {
      SucceedsExactly(l, ts[0]);
      StrangersChangeNothing(l, ts[1..]);
    }
  }

  /** The transaction records this identifier, alone or in a batch. */
  predicate Names(t: Transaction, id: string) {
    (t.call.RecordIssuance? && t.call.id == id) || (t.call.BatchRecordIssuance? && id in t.call.ids)
  }

  predicate NamesToRevoke(t: Transaction, id: string) {
    (t.call.RevokeBadge? && t.call.id == id) || (t.call.BatchRevoke? && id in t.call.ids)
  }

  lemma StepLeaves(l: Ledger, t: Transaction, id: string)
    requires Consistent(l)
    ensures !Names(t, id) ==>
      (id in Execute(l, t).isIssued <==> id in l.isIssued) && (id in Execute(l, t).issuances <==> id in l.issuances)
    ensures !NamesToRevoke(t, id) ==> (id in Execute(l, t).isRevoked <==> id in l.isRevoked)
  {
    match t.call
    case BatchRecordIssuance(ids, hashes) =>
      if |ids| == |hashes| {
        RecordAllExactly(l, ids, hashes, t.now);
      }
    case BatchRevoke(ids, reason) => RevokeAllExactly(l, ids, reason, t.now);
    case _ =>
  }

  /** The n-th transaction was sent by the owner, names the badge, and bears its time. */
  ghost predicate RecordedBy(l: Ledger, ts: seq<Transaction>, n: nat, e: Issuance) {
    n < |ts| && ts[n].caller == l.owner && Names(ts[n], e.credentialId) && e.issuedAt == ts[n].now
  }

  ghost predicate RevokedBy(l: Ledger, ts: seq<Transaction>, n: nat, e: Revocation) {
    n < |ts| && ts[n].caller == l.owner && NamesToRevoke(ts[n], e.credentialId) && e.revokedAt == ts[n].now
  }

  lemma StepRecords(l: Ledger, t: Transaction, id: string)
    requires Consistent(l) && Stamped(l, t.now)
    ensures var next := Execute(l, t);
      && (id in next.issuances && id !in l.issuances ==>
           next.issuances[id].credentialId == id && RecordedBy(l, [t], 0, next.issuances[id]))
      && (id in next.revocations && id !in l.revocations ==>
           next.revocations[id].credentialId == id && RevokedBy(l, [t], 0, next.revocations[id]))
  {
    match t.call
    case BatchRecordIssuance(ids, hashes) =>
      if |ids| == |hashes| {
        RecordAllExactly(l, ids, hashes, t.now);
      }
    case BatchRevoke(ids, reason) => RevokeAllExactly(l, ids, reason, t.now);
    case _ =>
  }

  /** Every badge recorded or revoked in a run was so by a transaction of the owner. */
  lemma {:induction false} OwnersRecord(l: Ledger, start: nat, ts: seq<Transaction>, id: string)
    requires Consistent(l) && Stamped(l, start) && Timely(start, ts)
    ensures id in Run(l, ts).issuances && id !in l.issuances ==> exists n: nat :: RecordedBy(l, ts, n, Run(l, ts).issuances[id])
    ensures id in Run(l, ts).revocations && id !in l.revocations ==> exists n: nat :: RevokedBy(l, ts, n, Run(l, ts).revocations[id])
    decreases |ts|
  {
    if ts != [] {
      var next := Execute(l, ts[0]);
      StepKeeps(l, ts[0]);
      StepRecords(l, ts[0], id);
      RunKeeps(next, ts[0].now, ts[1..]);
      OwnersRecord(next, ts[0].now, ts[1..], id);
      if id in Run(l, ts).issuances && id !in l.issuances {
        RecordedEarlier(l, ts, next, Run(l, ts).issuances[id]);
      }
      if id in Run(l, ts).revocations && id !in l.revocations {
        RevokedEarlier(l, ts, next, Run(l, ts).revocations[id]);
      }
    }
  }

  lemma RecordedEarlier(l: Ledger, ts: seq<Transaction>, next: Ledger, e: Issuance)
    requires ts != [] && next.owner == l.owner
    requires RecordedBy(l, [ts[0]], 0, e) || exists n: nat :: RecordedBy(next, ts[1..], n, e)
    ensures exists n: nat :: RecordedBy(l, ts, n, e)
  {
    if n: nat :| RecordedBy(next, ts[1..], n, e) {
      assert RecordedBy(l, ts, n + 1, e);
    } else {
      assert RecordedBy(l, ts, 0, e);
    }
  }

  lemma RevokedEarlier(l: Ledger, ts: seq<Transaction>, next: Ledger, e: Revocation)
    requires ts != [] && next.owner == l.owner
    requires RevokedBy(l, [ts[0]], 0, e) || exists n: nat :: RevokedBy(next, ts[1..], n, e)
    ensures exists n: nat :: RevokedBy(l, ts, n, e)
  {
    if n: nat :| RevokedBy(next, ts[1..], n, e) {
      assert RevokedBy(l, ts, n + 1, e);
    } else {
      assert RevokedBy(l, ts, 0, e);
    }
  }

  /** What the queries say of a badge that no transaction of the run records: nothing. */
  lemma {:induction false} UnrecordedReads(l: Ledger, start: nat, ts: seq<Transaction>, id: string, hash: Hash)
    requires Consistent(l) && Stamped(l, start) && Timely(start, ts) && id !in l.isIssued
    requires forall n :: 0 <= n < |ts| ==> !Names(ts[n], id)
    ensures Consistent(Run(l, ts))
    ensures VerifyHash(Run(l, ts), id, hash) == (false, 0)
    ensures BadgeStatus(Run(l, ts), id) == Status(false, false, 0, 0, 0)
    decreases |ts|
  {
    if ts != [] {
      StepKeeps(l, ts[0]);
      StepLeaves(l, ts[0], id);
      UnrecordedReads(Execute(l, ts[0]), ts[0].now, ts[1..], id, hash);
    }
  }

  lemma {:induction false} UnrevokedStays(l: Ledger, start: nat, ts: seq<Transaction>, id: string)
    requires Consistent(l) && Stamped(l, start) && Timely(start, ts) && id !in l.isRevoked
    requires forall n :: 0 <= n < |ts| ==> !NamesToRevoke(ts[n], id)
    ensures id !in Run(l, ts).isRevoked
    decreases |ts|
  {
    if ts != [] {
      StepKeeps(l, ts[0]);
      StepLeaves(l, ts[0], id);
      UnrevokedStays(Execute(l, ts[0]), ts[0].now, ts[1..], id);
    }
  }

  /** And of one that was recorded and that none revokes: its hash and its time, and no revocation. */
  lemma RecordedReads(l: Ledger, id: string, hash: Hash, now: nat, ts: seq<Transaction>)
    requires Consistent(l) && Stamped(l, now) && Timely(now, ts) && Record(l, id, hash, now).Some?
    requires forall n :: 0 <= n < |ts| ==> !NamesToRevoke(ts[n], id)
    ensures Consistent(Run(Record(l, id, hash, now).value, ts))
    ensures BadgeStatus(Run(Record(l, id, hash, now).value, ts), id) == Status(true, false, hash, now, 0)
  {
    RecordKeeps(l, id, hash, now);
    RunKeeps(Record(l, id, hash, now).value, now, ts);
    UnrevokedStays(Record(l, id, hash, now).value, now, ts, id);
  }

  /** The reason and the identifier that getRevocation returns are those of the revocation. */
  lemma ReasonIsForever(l: Ledger, id: string, reason: string, now: nat, ts: seq<Transaction>)
    requires Consistent(l) && Stamped(l, now) && Timely(now, ts) && Revoke(l, id, reason, now).Some?
    ensures id in Run(Revoke(l, id, reason, now).value, ts).revocations
    ensures Run(Revoke(l, id, reason, now).value, ts).revocations[id] == Revocation(id, reason, now)
  {
    RevokeKeeps(l, id, reason, now);
    RunKeeps(Revoke(l, id, reason, now).value, now, ts);
  }

  // ----- the contract

  class Contract {
    var owner: Address
    var issuances: map<string, Issuance>
    var isIssued: set<string>
    var issuedBadges: seq<string>
    var revocations: map<string, Revocation>
    var isRevoked: set<string>
    var revokedBadges: seq<string>

    function State(): Ledger
      reads this
    {
      Ledger(owner, issuances, isIssued, issuedBadges, revocations, isRevoked, revokedBadges)
    }

    constructor (sender: Address)
      ensures State() == Deployed(sender)
    {
      owner := sender;
      issuances, isIssued, issuedBadges := map[], {}, [];
      revocations, isRevoked, revokedBadges := map[], {}, [];
    }

    /** Undo every write of a reverted transaction. */
    method Rollback(saved: Ledger)
      modifies this
      ensures State() == saved
    {
      owner := saved.owner;
      issuances, isIssued, issuedBadges := saved.issuances, saved.isIssued, saved.issuedBadges;
      revocations, isRevoked, revokedBadges := saved.revocations, saved.isRevoked, saved.revokedBadges;
    }

    method StoreIssuance(id: string, hash: Hash, now: nat) returns (reverted: bool)
      modifies this
      ensures reverted == Record(old(State()), id, hash, now).None?
      ensures State() == if reverted then old(State()) else Record(old(State()), id, hash, now).value
    {
      if id in isIssued || hash == 0 {
        return true;
      }
      isIssued := isIssued + {id};
      issuances := issuances[id := Issuance(id, hash, now)];
      issuedBadges := issuedBadges + [id];
      return false;
    }

    method RevokeSingle(id: string, reason: string, now: nat) returns (reverted: bool)
      modifies this
      ensures reverted == Revoke(old(State()), id, reason, now).None?
      ensures State() == if reverted then old(State()) else Revoke(old(State()), id, reason, now).value
    {
      if id !in isIssued || id in isRevoked {
        return true;
      }
      isRevoked := isRevoked + {id};
      revocations := revocations[id := Revocation(id, reason, now)];
      revokedBadges := revokedBadges + [id];
      return false;
    }

    method RecordOnce(sender: Address, now: nat, id: string, hash: Hash) returns (reverted: bool)
      modifies this
      ensures reverted == Apply(old(State()), Transaction(now, sender, RecordIssuance(id, hash))).None?
      ensures State() == Execute(old(State()), Transaction(now, sender, RecordIssuance(id, hash)))
      ensures sender != old(owner) ==> reverted && State() == old(State())
    {
      if sender != owner {
        return true;
      }
      reverted := StoreIssuance(id, hash, now);
    }

    method RevokeOnce(sender: Address, now: nat, id: string, reason: string) returns (reverted: bool)
      modifies this
      ensures reverted == Apply(old(State()), Transaction(now, sender, RevokeBadge(id, reason))).None?
      ensures State() == Execute(old(State()), Transaction(now, sender, RevokeBadge(id, reason)))
      ensures sender != old(owner) ==> reverted && State() == old(State())
    {
      if sender != owner {
        return true;
      }
      reverted := RevokeSingle(id, reason, now);
    }

    /** The batch writes entry by entry; a failing entry undoes the entries before it. */
    method RecordBatch(sender: Address, now: nat, ids: seq<string>, hashes: seq<Hash>) returns (reverted: bool)
      modifies this
      ensures reverted <==> !(sender == old(owner) && ids != [] && |ids| == |hashes| && CanRecord(old(State()), ids, hashes))
      ensures reverted ==> State() == old(State())
      ensures !reverted ==> Recorded(old(State()), ids, hashes, now, State())
      ensures sender != old(owner) ==> reverted && State() == old(State())
    {
      if sender != owner || |ids| == 0 || |ids| != |hashes| {
        return true;
      }
      var saved := State();
      var i := 0;
      while i < |ids|
        invariant 0 <= i <= |ids|
        invariant Some(State()) == RecordAll(saved, ids[..i], hashes[..i], now)
      {
        assert ids[..i + 1][..i] == ids[..i] && hashes[..i + 1][..i] == hashes[..i];
        var failed := StoreIssuance(ids[i], hashes[i], now);
        if failed {
          RecordAllPrefix(saved, ids, hashes, now, i + 1);
          RecordAllExactly(saved, ids, hashes, now);
          Rollback(saved);
          return true;
        }
        i := i + 1;
      }
      assert ids[..i] == ids && hashes[..i] == hashes;
      RecordAllExactly(saved, ids, hashes, now);
      return false;
    }

    method RevokeBatch(sender: Address, now: nat, ids: seq<string>, reason: string) returns (reverted: bool)
      modifies this
      ensures reverted <==> !(sender == old(owner) && ids != [] && CanRevoke(old(State()), ids))
      ensures reverted ==> State() == old(State())
      ensures !reverted ==> RevokedThese(old(State()), ids, reason, now, State())
      ensures sender != old(owner) ==> reverted && State() == old(State())
    {
      if sender != owner || |ids| == 0 {
        return true;
      }
      var saved := State();
      var i := 0;
      while i < |ids|
        invariant 0 <= i <= |ids|
        invariant Some(State()) == RevokeAll(saved, ids[..i], reason, now)
      {
        assert ids[..i + 1][..i] == ids[..i];
        var failed := RevokeSingle(ids[i], reason, now);
        if failed {
          RevokeAllPrefix(saved, ids, reason, now, i + 1);
          RevokeAllExactly(saved, ids, reason, now);
          Rollback(saved);
          return true;
        }
        i := i + 1;
      }
      assert ids[..i] == ids;
      RevokeAllExactly(saved, ids, reason, now);
      return false;
    }
  }

  /** Once a prefix of a batch fails the whole batch fails. */
  lemma {:induction false} RecordAllPrefix(l: Ledger, ids: seq<string>, hashes: seq<Hash>, now: nat, k: nat)
    requires |ids| == |hashes| && k <= |ids|
    requires RecordAll(l, ids[..k], hashes[..k], now).None?
    ensures RecordAll(l, ids, hashes, now).None?
  {
    var n := |ids| - 1;
    if k == |ids| {
      assert ids[..k] == ids && hashes[..k] == hashes;
    } else {
      assert ids[..n][..k] == ids[..k] && hashes[..n][..k] == hashes[..k];
      RecordAllPrefix(l, ids[..n], hashes[..n], now, k);
    }
  }

  lemma {:induction false} RevokeAllPrefix(l: Ledger, ids: seq<string>, reason: string, now: nat, k: nat)
    requires k <= |ids|
    requires RevokeAll(l, ids[..k], reason, now).None?
    ensures RevokeAll(l, ids, reason, now).None?
  {
    var n := |ids| - 1;
    if k == |ids| {
      assert ids[..k] == ids;
    } else {
      assert ids[..n][..k] == ids[..k];
      RevokeAllPrefix(l, ids[..n], reason, now, k);
    }
  }
}
