/** What a server does when nothing fails: badges are saved and recorded, and revocations of recorded
    badges reach the chain. */
module IssuanceProgress {
  import opened Wrappers
  import opened Issuance
  import B = BadgeRegistry

  // ----- which requests are taken

  /** A request to revoke is taken exactly for a badge in the database that is not revoked, with a
      reason; a request to reissue exactly for a badge in the database. */
  lemma TakenExactly(s: State, id: string, reason: string, code: string, category: string, year: nat, hash: B.Hash)
    requires FourDigits(year)
    ensures Enabled(s, FindActive(id, reason)) <==> id in s.rows && !RowRevoked(s.rows, id) && reason != ""
    ensures Enabled(s, DrawAgain(id, code, category, year, hash)) <==> id in s.rows
    ensures Enabled(s, DrawNew(code, category, year, hash))
  {
  }

  // ----- a revocation can always be carried out

  predicate RevokedFor(l: B.Ledger, id: string, reason: string) {
    id in l.isRevoked && id in l.revocations && l.revocations[id].reason == reason
  }

  /** From every reachable state a recorded badge that is not revoked can be revoked: in the database,
      by a transaction that is sent, and on-chain, for the reason that was given. */
  lemma RevocationGoesThrough(chain: bool, owner: B.Address, before: seq<Step>, s: State, id: string, reason: string)
    returns (steps: seq<Step>, last: State)
    requires Reaches(Start(chain, owner), before, s) && s.chain && id in s.ledger.isIssued
    requires id in s.rows && s.rows[id].revoked.None? && reason != ""
    ensures Reaches(Start(chain, owner), steps, last) && before <= steps
    ensures RowRevoked(last.rows, id) && last.rows[id].revoked == Some(reason)
    ensures RevokedFor(last.ledger, id, reason) && last.sent == s.sent + 1 && (Quiet(s) ==> Quiet(last))
  {
    var start := Start(chain, owner);
    NotYetRevoked(chain, owner, before, s, id);
    var sent := RevocationSent(start, before, s, id, reason);
    MinedRevocationExactly(chain, owner, sent.0, sent.1, s.sent, s.now);
    steps, last := RevocationMined(start, sent.0, sent.1, s.sent, id, reason);
    PoolAgain(chain, owner, before, s, B.RevokeBadge(id, reason));
    QuietAgain(s, last);
  }

  lemma NotYetRevoked(chain: bool, owner: B.Address, before: seq<Step>, s: State, id: string)
    requires Reaches(Start(chain, owner), before, s) && !RowRevoked(s.rows, id)
    ensures id !in s.ledger.isRevoked
  {
    RunKeeps(Start(chain, owner), before, s);
  }

  lemma PoolAgain(chain: bool, owner: B.Address, before: seq<Step>, s: State, call: B.Call)
    requires Reaches(Start(chain, owner), before, s)
    ensures s.pool[s.sent := call] - {s.sent} == s.pool
  {
    RunKeeps(Start(chain, owner), before, s);
    assert s.sent !in s.pool;
  }

  lemma QuietAgain(s: State, last: State)
    requires last.pool == s.pool && last.processes == s.processes + [Stopped]
    ensures Quiet(s) ==> Quiet(last)
  {
  }

  lemma RevocationMined(start: State, before: seq<Step>, s: State, tx: nat, id: string, reason: string)
    returns (steps: seq<Step>, last: State)
    requires Reaches(start, before, s) && tx in s.pool && s.pool[tx] == B.RevokeBadge(id, reason)
    requires id in Mined(s, tx, s.now).ledger.isRevoked && id !in s.ledger.isRevoked
    ensures Reaches(start, steps, last) && before <= steps
    ensures RevokedFor(last.ledger, id, reason) && last.rows == s.rows && last.sent == s.sent
    ensures last.processes == s.processes && last.pool == s.pool - {tx}
  {
    ReachesMore(start, before, s, Mine(tx, s.now));
    steps, last := before + [Mine(tx, s.now)], Take(s, Mine(tx, s.now));
  }

  lemma RevocationSent(start: State, before: seq<Step>, s: State, id: string, reason: string) returns (run: (seq<Step>, State))
    requires Reaches(start, before, s) && s.chain && id in s.rows && s.rows[id].revoked.None? && reason != ""
    ensures Reaches(start, run.0, run.1) && before <= run.0
    ensures run.1 == s.(rows := s.rows[id := s.rows[id].(revoked := Some(reason))], processes := s.processes + [Stopped],
      sent := s.sent + 1, pool := s.pool[s.sent := B.RevokeBadge(id, reason)])
  {
    var p := |s.processes|;
    ReachesMore(start, before, s, FindActive(id, reason));
    var steps := before + [FindActive(id, reason)];
    var s1 := Take(s, FindActive(id, reason));
    ReachesMore(start, steps, s1, SetRevoked(p, true));
    steps := steps + [SetRevoked(p, true)];
    var s2 := Take(s1, SetRevoked(p, true));
    assert s2.processes == s.processes + [Revoker(id, reason)];
    ReachesMore(start, steps, s2, SendRevoke(p));
    run := (steps + [SendRevoke(p)], Take(s2, SendRevoke(p)));
    assert run.1.processes == s.processes + [Stopped];
  }

  // ----- an issue can always be carried out

  /** From every reachable state the next badge can be issued: saved, recorded on-chain with its own
      hash, and marked with its transaction. */
  lemma IssueGoesThrough(chain: bool, owner: B.Address, before: seq<Step>, s: State, d: Drawn)
    returns (steps: seq<Step>, last: State)
    requires Reaches(Start(chain, owner), before, s) && s.chain
    requires MadeFrom(d) && d.number == s.counter + 1 && d.kind == Fresh && d.hash != 0
    ensures Reaches(Start(chain, owner), steps, last) && last.drawn == s.drawn + [d]
    ensures d.id in last.rows && last.rows[d.id] == Row(d.hash, None, Some(s.sent))
    ensures Recorded(last.ledger, d.id, d.hash)
  {
    var start := Start(chain, owner);
    RunKeeps(start, before, s);
    NextIdIsNew(s, d);
    NextIdUnissued(s, d);
    var saved := IssueSaved(start, before, s, d);
    steps, last := IssueRecorded(start, saved.0, saved.1, |s.processes|, d.id, d.hash);
  }

  lemma NextIdUnissued(s: State, d: Drawn)
    requires Inv(s) && MadeFrom(d) && d.number == s.counter + 1
    ensures d.id !in s.ledger.isIssued
  {
    forall g | 0 <= g < |s.drawn| ensures s.drawn[g].id != d.id {
      NextIdDiffers(s.drawn, s.counter, d, g);
    }
  }

  lemma IssueSaved(start: State, before: seq<Step>, s: State, d: Drawn) returns (run: (seq<Step>, State))
    requires Reaches(start, before, s) && s.chain && d.id !in s.rows
    requires MadeFrom(d) && d.number == s.counter + 1 && d.kind == Fresh
    ensures Reaches(start, run.0, run.1)
    ensures run.1 == s.(counter := d.number, drawn := s.drawn + [d], rows := s.rows[d.id := Row(d.hash, None, None)],
      processes := s.processes + [Recorder(d.id, d.hash)])
  {
    var p := |s.processes|;
    var draw := DrawNew(d.code, d.category, d.year, d.hash);
    ReachesMore(start, before, s, draw);
    var s1 := Take(s, draw);
    assert s1 == s.(counter := d.number, drawn := s.drawn + [d], processes := s.processes + [Builder(d.id, d.hash, Fresh)]);
    ReachesMore(start, before + [draw], s1, Save(p, true));
    run := (before + [draw] + [Save(p, true)], Take(s1, Save(p, true)));
    assert run.1.processes == s.processes + [Recorder(d.id, d.hash)];
  }

  lemma IssueRecorded(start: State, before: seq<Step>, s: State, p: nat, id: string, hash: B.Hash)
    returns (steps: seq<Step>, last: State)
    requires Reaches(start, before, s) && At(s, p) && s.processes[p] == Recorder(id, hash)
    requires id in s.rows && id !in s.ledger.isIssued && hash != 0 && s.ledger.owner == s.owner
    ensures Reaches(start, steps, last) && last.drawn == s.drawn
    ensures id in last.rows && last.rows[id] == s.rows[id].(txHash := Some(s.sent))
    ensures Recorded(last.ledger, id, hash)
  {
    var tx := s.sent;
    ReachesMore(start, before, s, SendRecord(p));
    steps := before + [SendRecord(p)];
    var s1 := Take(s, SendRecord(p));
    assert s1.pool[tx] == B.RecordIssuance(id, hash) && s1.processes[p] == Awaiting(id, hash, tx);
    ReachesMore(start, steps, s1, Mine(tx, s.now));
    steps := steps + [Mine(tx, s.now)];
    var s2 := Take(s1, Mine(tx, s.now));
    assert s2.receipts[tx].succeeded && Recorded(s2.ledger, id, hash);
    steps, last := IssueMarked(start, steps, s2, p, id, hash, tx);
  }

  lemma IssueMarked(start: State, before: seq<Step>, s: State, p: nat, id: string, hash: B.Hash, tx: nat)
    returns (steps: seq<Step>, last: State)
    requires Reaches(start, before, s) && At(s, p) && s.processes[p] == Awaiting(id, hash, tx) && id in s.rows
    requires tx in s.receipts && s.receipts[tx].succeeded
    ensures Reaches(start, steps, last) && last.drawn == s.drawn && last.ledger == s.ledger
    ensures id in last.rows && last.rows[id] == s.rows[id].(txHash := Some(tx))
  {
    ReachesMore(start, before, s, SeeReceipt(p));
    steps := before + [SeeReceipt(p)];
    var s1 := Take(s, SeeReceipt(p));
    ReachesMore(start, steps, s1, Mark(p, true));
    steps := steps + [Mark(p, true)];
    last := Take(s1, Mark(p, true));
  }

  // ----- every run in which nothing fails

  /** Nothing is dropped, given up, lost or reported as failed. */
  predicate Smooth(step: Step) {
    match step
    case Save(_, written) => written
    case Mark(_, written) => written
    case SetRevoked(_, reported) => reported
    case Drop(_) => false
    case GiveUp(_) => false
    case Crash => false
    case _ => true
  }

  predicate AllSmooth(steps: seq<Step>)
    decreases |steps|
  {
    steps == [] || (Smooth(steps[0]) && AllSmooth(steps[1..]))
  }

  ghost predicate RevokingAt(s: State, p: nat, id: string) {
    At(s, p) && (s.processes[p].Revoking? || s.processes[p].Revoker?) && s.processes[p].id == id
  }

  ghost predicate RevokingIn(s: State, tx: nat, id: string) {
    tx in s.pool && s.pool[tx].RevokeBadge? && s.pool[tx].id == id
  }

  /** The revocation has reached the chain, or is on its way. */
  ghost predicate RevocationUnderway(s: State, id: string) {
    id in s.ledger.isRevoked || (exists p: nat :: RevokingAt(s, p, id)) || (exists tx: nat :: RevokingIn(s, tx, id))
  }

  /** What one step leaves as it was, or adds to. */
  ghost predicate Steady(s: State, t: State) {
    t.chain == s.chain && s.ledger.isIssued <= t.ledger.isIssued && s.ledger.isRevoked <= t.ledger.isRevoked
  }

  ghost predicate Sendable(s: State) { s.ledger.owner == s.owner && forall tx :: tx in s.pool ==> tx < s.sent }

  lemma StepSteady(s: State, step: Step)
    requires Inv(s) && Enabled(s, step)
    ensures Steady(s, Take(s, step)) && Inv(Take(s, step)) && Sendable(s)
  {
    StepKeeps(s, step);
  }

  lemma RevocationMovesOn(s: State, step: Step, id: string)
    requires Sendable(s) && Enabled(s, step) && Smooth(step) && s.chain && id in s.ledger.isIssued
    requires Steady(s, Take(s, step)) && RevocationUnderway(s, id)
    ensures RevocationUnderway(Take(s, step), id)
  {
    if id in s.ledger.isRevoked {
    } else if p: nat :| RevokingAt(s, p, id) {
      RequestMovesOn(s, step, id, p);
    } else {
      var tx: nat :| RevokingIn(s, tx, id);
      if step.Mine? {
        MiningMovesOn(s, step.tx, step.at, id, tx);
      } else {
        PoolMovesOn(s, step, id, tx);
      }
    }
  }

  lemma RequestMovesOn(s: State, step: Step, id: string, p: nat)
    requires Enabled(s, step) && Smooth(step) && s.chain && RevokingAt(s, p, id)
    ensures RevocationUnderway(Take(s, step), id)
  {
    var t := Take(s, step);
    if step == SendRevoke(p) {
      assert RevokingIn(t, s.sent, id);
    } else {
      assert RevokingAt(t, p, id);
    }
  }

  lemma MiningMovesOn(s: State, mined: nat, at: nat, id: string, tx: nat)
    requires mined in s.pool && s.ledger.owner == s.owner && id in s.ledger.isIssued && RevokingIn(s, tx, id)
    ensures RevocationUnderway(Mined(s, mined, at), id)
  {
    if mined == tx {
      OneMoreTransaction(s.ledger, B.Transaction(at, s.owner, s.pool[tx]), id);
    } else {
      assert RevokingIn(Mined(s, mined, at), tx, id);
    }
  }

  lemma PoolMovesOn(s: State, step: Step, id: string, tx: nat)
    requires Sendable(s) && Enabled(s, step) && Smooth(step) && !step.Mine? && RevokingIn(s, tx, id)
    ensures RevocationUnderway(Take(s, step), id)
  {
    assert RevokingIn(Take(s, step), tx, id);
  }

  lemma {:induction false} RunMovesOn(s: State, steps: seq<Step>, last: State, id: string)
    requires Inv(s) && Reaches(s, steps, last) && AllSmooth(steps) && s.chain && id in s.ledger.isIssued
    requires RevocationUnderway(s, id)
    ensures RevocationUnderway(last, id)
    decreases |steps|
  {
    if steps != [] {
      StepSteady(s, steps[0]);
      RevocationMovesOn(s, steps[0], id);
      RunMovesOn(Take(s, steps[0]), steps[1..], last, id);
    }
  }

  lemma QuietRevoked(s: State, id: string)
    requires Quiet(s) && RevocationUnderway(s, id)
    ensures id in s.ledger.isRevoked
  {
    forall p: nat ensures !RevokingAt(s, p, id) {
      if At(s, p) {
        assert s.processes[p].Stopped?;
      }
    }
  }

  lemma Asked(s: State, id: string, reason: string)
    requires Enabled(s, FindActive(id, reason))
    ensures RevocationUnderway(Take(s, FindActive(id, reason)), id)
    ensures Take(s, FindActive(id, reason)).ledger == s.ledger && Take(s, FindActive(id, reason)).chain == s.chain
  {
    assert RevokingAt(Take(s, FindActive(id, reason)), |s.processes|, id);
  }

  /** Main theorem.  In every run from a request to revoke a recorded badge in which nothing fails,
      once nothing is left to happen the badge is revoked in the database and on-chain. */
  lemma SmoothRevocationArrives(chain: bool, owner: B.Address, before: seq<Step>, s: State, id: string, reason: string,
                                steps: seq<Step>, last: State)
    requires Reaches(Start(chain, owner), before, s) && s.chain && id in s.ledger.isIssued
    requires Enabled(s, FindActive(id, reason)) && Reaches(Take(s, FindActive(id, reason)), steps, last)
    requires AllSmooth(steps) && Quiet(last)
    ensures id in last.ledger.isRevoked && RowRevoked(last.rows, id)
  {
    RunKeeps(Start(chain, owner), before, s);
    var asked := Take(s, FindActive(id, reason));
    StepKeeps(s, FindActive(id, reason));
    Asked(s, id, reason);
    RunMovesOn(asked, steps, last, id);
    QuietRevoked(last, id);
    RevokedRow(asked, steps, last, id);
  }

  lemma RevokedRow(s: State, steps: seq<Step>, last: State, id: string)
    requires Inv(s) && Reaches(s, steps, last) && id in last.ledger.isRevoked
    ensures RowRevoked(last.rows, id)
  {
    RunKeeps(s, steps, last);
  }

  // ----- and every badge is saved and recorded

  ghost predicate BuildingAt(s: State, p: nat, d: Drawn) { At(s, p) && s.processes[p] == Builder(d.id, d.hash, d.kind) }

  ghost predicate RecordingAt(s: State, p: nat, d: Drawn) {
    && At(s, p)
    && match s.processes[p]
      case Recorder(id, hash) => id == d.id && hash == d.hash
      case Awaiting(id, hash, _) => id == d.id && hash == d.hash
      case Marking(id, hash, _) => id == d.id && hash == d.hash
      case _ => false
  }

  /** The badge is being built, or it is saved and, if it is a new one, recorded or being so. */
  ghost predicate IssueUnderway(s: State, d: Drawn) {
    || (exists p: nat :: BuildingAt(s, p, d))
    || (d.id in s.rows && (d.kind == Again || !s.chain || s.rows[d.id].txHash.Some? || exists p: nat :: RecordingAt(s, p, d)))
  }

  lemma IssueMovesOn(s: State, step: Step, d: Drawn)
    requires Enabled(s, step) && Smooth(step) && IssueUnderway(s, d)
    ensures IssueUnderway(Take(s, step), d)
  {
    var t := Take(s, step);
    if p: nat :| BuildingAt(s, p, d) {
      if step == Save(p, true) {
        assert d.kind == Fresh && s.chain ==> RecordingAt(t, p, d);
      } else {
        assert BuildingAt(t, p, d);
      }
    } else if p: nat :| RecordingAt(s, p, d) {
      RecordingMovesOn(s, step, d, p);
    }
  }

  lemma RecordingMovesOn(s: State, step: Step, d: Drawn, p: nat)
    requires Enabled(s, step) && Smooth(step) && d.id in s.rows && RecordingAt(s, p, d)
    ensures IssueUnderway(Take(s, step), d)
  {
    var t := Take(s, step);
    if step == Mark(p, true) {
      assert t.rows[d.id].txHash.Some?;
    } else {
      assert RecordingAt(t, p, d);
    }
  }

  ghost predicate AllUnderway(s: State) {
    forall g :: 0 <= g < |s.drawn| ==> IssueUnderway(s, s.drawn[g])
  }

  lemma AllMoveOn(s: State, step: Step)
    requires Inv(s) && Enabled(s, step) && Smooth(step) && AllUnderway(s)
    ensures AllUnderway(Take(s, step))
  {
    var t := Take(s, step);
    forall g | 0 <= g < |t.drawn| ensures IssueUnderway(t, t.drawn[g]) {
      if g < |s.drawn| {
        StepKeeps(s, step);
        assert t.drawn[g] == s.drawn[g];
        IssueMovesOn(s, step, s.drawn[g]);
      } else {
        assert BuildingAt(t, |s.processes|, t.drawn[g]);
      }
    }
  }

  lemma {:induction false} RunAllMoveOn(s: State, steps: seq<Step>, last: State)
    requires Inv(s) && Reaches(s, steps, last) && AllSmooth(steps) && AllUnderway(s)
    ensures AllUnderway(last) && last.chain == s.chain
    decreases |steps|
  {
    if steps != [] {
      StepSteady(s, steps[0]);
      AllMoveOn(s, steps[0]);
      RunAllMoveOn(Take(s, steps[0]), steps[1..], last);
    }
  }

  lemma QuietIssued(s: State, d: Drawn)
    requires Quiet(s) && IssueUnderway(s, d)
    ensures d.id in s.rows && (d.kind == Again || !s.chain || s.rows[d.id].txHash.Some?)
  {
    forall p: nat ensures !BuildingAt(s, p, d) && !RecordingAt(s, p, d) {
      if At(s, p) {
        assert s.processes[p].Stopped?;
      }
    }
  }

  /** Main theorem.  In every run in which nothing fails, once nothing is left to happen every badge
      that was drawn has its row, and every new one is recorded on-chain with the row's hash and
      marked with its transaction, if there is a chain. */
  lemma SmoothIssuesArrive(chain: bool, owner: B.Address, steps: seq<Step>, s: State, g: nat)
    requires Reaches(Start(chain, owner), steps, s) && AllSmooth(steps) && Quiet(s) && g < |s.drawn|
    ensures s.drawn[g].id in s.rows && s.rows[s.drawn[g].id].hash == s.drawn[g].hash
    ensures chain && s.drawn[g].kind == Fresh ==>
      s.rows[s.drawn[g].id].txHash.Some? && Recorded(s.ledger, s.drawn[g].id, s.drawn[g].hash)
  {
    RunKeeps(Start(chain, owner), steps, s);
    RunAllMoveOn(Start(chain, owner), steps, s);
    QuietIssued(s, s.drawn[g]);
    RowHash(s, g);
  }

  lemma RowHash(s: State, g: nat)
    requires Inv(s) && g < |s.drawn| && s.drawn[g].id in s.rows
    ensures s.rows[s.drawn[g].id].hash == s.drawn[g].hash
    ensures s.rows[s.drawn[g].id].txHash.Some? ==> Recorded(s.ledger, s.drawn[g].id, s.drawn[g].hash)
  {
    var d := s.drawn[g];
    var hash := s.rows[d.id].hash;
    assert RowOk(s, d.id);
    assert Known(s.drawn, d.id, d.hash, d.kind);
    if Known(s.drawn, d.id, hash, Fresh) {
      KnownOnce(s.drawn, s.counter, d.id, d.hash, d.kind, hash, Fresh);
    } else {
      KnownOnce(s.drawn, s.counter, d.id, d.hash, d.kind, hash, Again);
    }
  }
}
