/** Issue, record, reissue and revoke across the database and the chain, as atomic steps of any
    number of requests and background goroutines in any interleaving.  Every write may fail, any
    goroutine may stop anywhere, the server may crash, and transactions may be mined in any order,
    late or never. */
module Issuance {
  import opened Wrappers
  import opened CredentialIds
  import B = BadgeRegistry

  datatype Kind = Fresh | Again

  /** An identifier drawn from the sequence, and the hash of the credential built with it. */
  datatype Drawn = Drawn(id: string, hash: B.Hash, kind: Kind, number: nat, year: nat, code: string, category: string)

  /** A row of the badges table, found by its unique credential_id. */
  datatype Row = Row(hash: B.Hash, revoked: Option<string>, txHash: Option<nat>)

  datatype Process =
    | Builder(id: string, hash: B.Hash, kind: Kind)
    | Recorder(id: string, hash: B.Hash)
    | Awaiting(id: string, hash: B.Hash, tx: nat)
    | Marking(id: string, hash: B.Hash, tx: nat)
    | Revoking(id: string, reason: string)
    | Revoker(id: string, reason: string)
    | Stopped

  datatype Receipt = Receipt(call: B.Call, succeeded: bool)

  datatype State = State(
    chain: bool,                  // is a blockchain client configured
    counter: nat,                 // badge_credential_seq
    drawn: seq<Drawn>,
    rows: map<string, Row>,
    processes: seq<Process>,
    sent: nat,                    // transactions are numbered as they are sent
    pool: map<nat, B.Call>,
    receipts: map<nat, Receipt>,
    mined: seq<B.Transaction>,
    now: nat,                     // the last block's timestamp
    owner: B.Address,
    ledger: B.Ledger)

  function Start(chain: bool, owner: B.Address): State {
    State(chain, 0, [], map[], [], 0, map[], map[], [], 0, owner, B.Deployed(owner))
  }

  // ----- steps

  datatype Step =
    | SkipNumber                          // a number was drawn and lost
    | DrawNew(code: string, category: string, year: nat, hash: B.Hash)
    | DrawAgain(source: string, code: string, category: string, year: nat, hash: B.Hash)
    | Save(p: nat, written: bool)
    | SendRecord(p: nat)
    | SeeReceipt(p: nat)
    | Mark(p: nat, written: bool)
    | FindActive(id: string, reason: string)
    | SetRevoked(p: nat, reported: bool)  // the update is made; its success may not be reported
    | SendRevoke(p: nat)
    | Mine(tx: nat, at: nat)
    | Drop(tx: nat)
    | GiveUp(p: nat)                      // an error, a timeout or a panic
    | Crash

  predicate At(s: State, p: nat) { p < |s.processes| }

  predicate FourDigits(year: nat) { 1000 <= year <= 9999 }

  predicate Enabled(s: State, step: Step) {
    match step
    case SkipNumber => true
    case DrawNew(_, _, year, _) => FourDigits(year)
    case DrawAgain(source, _, _, year, _) => FourDigits(year) && source in s.rows
    case Save(p, written) => At(s, p) && s.processes[p].Builder? && (written ==> s.processes[p].id !in s.rows)
    case SendRecord(p) => At(s, p) && s.processes[p].Recorder?
    case SeeReceipt(p) =>
      At(s, p) && s.processes[p].Awaiting? && s.processes[p].tx in s.receipts && s.receipts[s.processes[p].tx].succeeded
    case Mark(p, _) => At(s, p) && s.processes[p].Marking?
    case FindActive(id, reason) => id in s.rows && s.rows[id].revoked.None? && reason != ""
    case SetRevoked(p, _) => At(s, p) && s.processes[p].Revoking? && s.processes[p].id in s.rows
    case SendRevoke(p) => At(s, p) && s.processes[p].Revoker?
    case Mine(tx, at) => tx in s.pool && s.now <= at
    case Drop(tx) => tx in s.pool
    case GiveUp(p) => At(s, p)
    case Crash => true
  }

  function Draw(s: State, code: string, category: string, year: nat, hash: B.Hash, kind: Kind): State
    requires FourDigits(year)
  {
    var n := s.counter + 1;
    var id := FormatId(code, category, year, n);
    s.(counter := n, drawn := s.drawn + [Drawn(id, hash, kind, n, year, code, category)],
       processes := s.processes + [Builder(id, hash, kind)])
  }

  function Move(s: State, p: nat, next: Process): State
    requires At(s, p)
  {
    s.(processes := s.processes[p := next])
  }

  function Send(s: State, call: B.Call): State {
    s.(pool := s.pool[s.sent := call], sent := s.sent + 1)
  }

  function Mined(s: State, tx: nat, at: nat): State
    requires tx in s.pool
  {
    var t := B.Transaction(at, s.owner, s.pool[tx]);
    s.(pool := s.pool - {tx}, receipts := s.receipts[tx := Receipt(s.pool[tx], B.Apply(s.ledger, t).Some?)],
       mined := s.mined + [t], now := at, ledger := B.Execute(s.ledger, t))
  }

  function Take(s: State, step: Step): State
    requires Enabled(s, step)
  {
    match step
    case SkipNumber => s.(counter := s.counter + 1)
    case DrawNew(code, category, year, hash) => Draw(s, code, category, year, hash, Fresh)
    case DrawAgain(_, code, category, year, hash) => Draw(s, code, category, year, hash, Again)
    case Save(p, written) =>
      var b := s.processes[p];
      var saved := if written then s.(rows := s.rows[b.id := Row(b.hash, None, None)]) else s;
      Move(saved, p, if b.kind.Fresh? && s.chain then Recorder(b.id, b.hash) else Stopped) // a reissue is not recorded
    case SendRecord(p) =>
      var r := s.processes[p];
      Move(Send(s, B.RecordIssuance(r.id, r.hash)), p, Awaiting(r.id, r.hash, s.sent))
    case SeeReceipt(p) =>
      var a := s.processes[p];
      Move(s, p, Marking(a.id, a.hash, a.tx))
    case Mark(p, written) =>
      var m := s.processes[p];
      var marked := if written && m.id in s.rows then s.(rows := s.rows[m.id := s.rows[m.id].(txHash := Some(m.tx))]) else s;
      Move(marked, p, Stopped)
    case FindActive(id, reason) => s.(processes := s.processes + [Revoking(id, reason)])
    case SetRevoked(p, reported) =>
      var r := s.processes[p];
      Move(s.(rows := s.rows[r.id := s.rows[r.id].(revoked := Some(r.reason))]), p,
        if reported && s.chain then Revoker(r.id, r.reason) else Stopped)
    case SendRevoke(p) =>
      var r := s.processes[p];
      Move(Send(s, B.RevokeBadge(r.id, r.reason)), p, Stopped)
    case Mine(tx, at) => Mined(s, tx, at)
    case Drop(tx) => s.(pool := s.pool - {tx})
    case GiveUp(p) => Move(s, p, Stopped)
    case Crash => s.(processes := seq(|s.processes|, _ => Stopped))
  }

  ghost predicate Reaches(s: State, steps: seq<Step>, last: State)
    decreases |steps|
  {
    if steps == [] then s == last
    else Enabled(s, steps[0]) && Reaches(Take(s, steps[0]), steps[1..], last)
  }

  // ----- identifiers never collide

  predicate MadeFrom(d: Drawn) {
    FourDigits(d.year) && 0 < d.number && d.id == FormatId(d.code, d.category, d.year, d.number)
  }

  /** Numbers only grow, and every identifier is made from its own number. */
  ghost predicate DrawnOk(drawn: seq<Drawn>, counter: nat) {
    && (forall g :: 0 <= g < |drawn| ==> 0 < drawn[g].number <= counter && MadeFrom(drawn[g]))
    && (forall g, h :: 0 <= g < h < |drawn| ==> drawn[g].number < drawn[h].number)
  }

  /** No identifier is ever drawn twice. */
  lemma IdsNeverCollide(drawn: seq<Drawn>, counter: nat, g: nat, h: nat)
    requires DrawnOk(drawn, counter) && g < |drawn| && h < |drawn| && drawn[g].id == drawn[h].id
    ensures g == h
  {
    var a, b := drawn[g], drawn[h];
    FourDigitYear(a.year);
    FourDigitYear(b.year);
    IdsDiffer(a.code, a.category, a.year, a.number, b.code, b.category, b.year, b.number);
  }

  /** The identifier was drawn by a call of this kind, which built a credential of this hash. */
  ghost predicate Known(drawn: seq<Drawn>, id: string, hash: B.Hash, kind: Kind) {
    exists g :: 0 <= g < |drawn| && drawn[g].id == id && drawn[g].hash == hash && drawn[g].kind == kind
  }

  lemma KnownOnce(drawn: seq<Drawn>, counter: nat, id: string, hash: B.Hash, kind: Kind, hash': B.Hash, kind': Kind)
    requires DrawnOk(drawn, counter) && Known(drawn, id, hash, kind) && Known(drawn, id, hash', kind')
    ensures hash == hash' && kind == kind'
  {
    var g :| 0 <= g < |drawn| && drawn[g].id == id && drawn[g].hash == hash && drawn[g].kind == kind;
    var h :| 0 <= h < |drawn| && drawn[h].id == id && drawn[h].hash == hash' && drawn[h].kind == kind';
    IdsNeverCollide(drawn, counter, g, h);
  }

  // ----- the invariant

  predicate RowRevoked(rows: map<string, Row>, id: string) { id in rows && rows[id].revoked.Some? }

  predicate Recorded(l: B.Ledger, id: string, hash: B.Hash) { id in l.issuances && l.issuances[id].badgeHash == hash }

  ghost predicate CallOk(s: State, c: B.Call) {
    match c
    case RecordIssuance(id, hash) => Known(s.drawn, id, hash, Fresh)
    case RevokeBadge(id, _) => RowRevoked(s.rows, id)
    case _ => false
  }

  ghost predicate ProcessOk(s: State, p: Process) {
    match p
    case Builder(id, hash, kind) => Known(s.drawn, id, hash, kind)
    case Recorder(id, hash) => Known(s.drawn, id, hash, Fresh)
    case Awaiting(id, hash, tx) =>
      && Known(s.drawn, id, hash, Fresh) && tx < s.sent
      && (tx in s.pool ==> s.pool[tx] == B.RecordIssuance(id, hash))
      && (tx in s.receipts ==> s.receipts[tx].call == B.RecordIssuance(id, hash))
    case Marking(id, hash, _) => Known(s.drawn, id, hash, Fresh) && Recorded(s.ledger, id, hash)
    case Revoking(id, _) => id in s.rows
    case Revoker(id, _) => RowRevoked(s.rows, id)
    case Stopped => true
  }

  ghost predicate RowOk(s: State, id: string)
    requires id in s.rows
  {
    && (Known(s.drawn, id, s.rows[id].hash, Fresh) || Known(s.drawn, id, s.rows[id].hash, Again))
    && (s.rows[id].txHash.Some? ==> Recorded(s.ledger, id, s.rows[id].hash))
  }

  ghost predicate ReceiptOk(s: State, r: Receipt) {
    (r.succeeded && r.call.RecordIssuance?) ==> Recorded(s.ledger, r.call.id, r.call.hash)
  }

  ghost predicate LedgerOk(s: State) {
    && s.ledger.owner == s.owner && B.Consistent(s.ledger) && B.Stamped(s.ledger, s.now)
    && (forall id :: id in s.ledger.issuances ==> Known(s.drawn, id, s.ledger.issuances[id].badgeHash, Fresh))
    && (forall id :: id in s.ledger.isRevoked ==> RowRevoked(s.rows, id))
  }

  ghost predicate MinedOk(s: State) {
    && s.ledger == B.Run(B.Deployed(s.owner), s.mined)
    && forall k :: 0 <= k < |s.mined| ==> Single(s.mined[k], s.owner)
  }

  /** A transaction of the kinds the server sends. */
  predicate Single(t: B.Transaction, owner: B.Address) {
    t.caller == owner && (t.call.RecordIssuance? || t.call.RevokeBadge?)
  }

  ghost predicate Inv(s: State) {
    && DrawnOk(s.drawn, s.counter)
    && LedgerOk(s) && MinedOk(s)
    && (forall p :: 0 <= p < |s.processes| ==> ProcessOk(s, s.processes[p]))
    && (forall id :: id in s.rows ==> RowOk(s, id))
    && (forall tx :: tx in s.pool ==> tx < s.sent && CallOk(s, s.pool[tx]))
    && (forall tx :: tx in s.receipts ==> tx < s.sent && ReceiptOk(s, s.receipts[tx]))
  }

  // ----- what no step undoes

  ghost predicate Grows(s: State, t: State) {
    && s.drawn <= t.drawn && s.sent <= t.sent && s.mined <= t.mined && B.Preserved(s.ledger, t.ledger)
    && (forall id :: id in s.rows ==> id in t.rows && t.rows[id].hash == s.rows[id].hash)
    && (forall id :: RowRevoked(s.rows, id) ==> RowRevoked(t.rows, id))
    && (forall tx :: tx < s.sent && tx in t.pool ==> tx in s.pool && t.pool[tx] == s.pool[tx])
    && (forall tx :: tx < s.sent && tx in t.receipts ==>
         (tx in s.receipts && t.receipts[tx] == s.receipts[tx]) || (tx in s.pool && t.receipts[tx].call == s.pool[tx]))
  }

  lemma KnownGrows(drawn: seq<Drawn>, more: seq<Drawn>, id: string, hash: B.Hash, kind: Kind)
    requires drawn <= more && Known(drawn, id, hash, kind)
    ensures Known(more, id, hash, kind)
  {
    var g :| 0 <= g < |drawn| && drawn[g].id == id && drawn[g].hash == hash && drawn[g].kind == kind;
    assert more[g] == drawn[g];
  }

  lemma ProcessGrows(s: State, t: State, p: Process)
    requires Grows(s, t) && ProcessOk(s, p)
    ensures ProcessOk(t, p)
  {
    match p
    case Builder(id, hash, kind) => KnownGrows(s.drawn, t.drawn, id, hash, kind);
    case Recorder(id, hash) => KnownGrows(s.drawn, t.drawn, id, hash, Fresh);
    case Awaiting(id, hash, _) => KnownGrows(s.drawn, t.drawn, id, hash, Fresh);
    case Marking(id, hash, _) => KnownGrows(s.drawn, t.drawn, id, hash, Fresh);
    case _ =>
  }

  lemma CallGrows(s: State, t: State, c: B.Call)
    requires Grows(s, t) && CallOk(s, c)
    ensures CallOk(t, c)
  {
    if c.RecordIssuance? {
      KnownGrows(s.drawn, t.drawn, c.id, c.hash, Fresh);
    }
  }

  lemma RowGrows(s: State, t: State, id: string)
    requires Grows(s, t) && id in s.rows && RowOk(s, id)
    requires t.rows[id].txHash == s.rows[id].txHash
    ensures RowOk(t, id)
  {
    if Known(s.drawn, id, s.rows[id].hash, Fresh) {
      KnownGrows(s.drawn, t.drawn, id, s.rows[id].hash, Fresh);
    } else {
      KnownGrows(s.drawn, t.drawn, id, s.rows[id].hash, Again);
    }
  }

  /** Everything but the new entries keeps its part of the invariant. */
  lemma OldPartsKept(s: State, t: State)
    requires Inv(s) && Grows(s, t)
    ensures forall p :: 0 <= p < |s.processes| ==> ProcessOk(t, s.processes[p])
    ensures forall id :: id in s.rows && t.rows[id].txHash == s.rows[id].txHash ==> RowOk(t, id)
    ensures forall tx :: tx in s.pool ==> tx < t.sent && CallOk(t, s.pool[tx])
    ensures forall tx :: tx in s.receipts ==> tx < t.sent && ReceiptOk(t, s.receipts[tx])
    ensures forall id :: id in s.ledger.issuances ==> Known(t.drawn, id, s.ledger.issuances[id].badgeHash, Fresh)
    ensures forall id :: id in s.ledger.isRevoked ==> RowRevoked(t.rows, id)
  {
    forall p | 0 <= p < |s.processes| ensures ProcessOk(t, s.processes[p]) {
      ProcessGrows(s, t, s.processes[p]);
    }
    forall id | id in s.rows && t.rows[id].txHash == s.rows[id].txHash ensures RowOk(t, id) {
      RowGrows(s, t, id);
    }
    forall tx | tx in s.pool ensures tx < t.sent && CallOk(t, s.pool[tx]) {
      CallGrows(s, t, s.pool[tx]);
    }
    forall id | id in s.ledger.issuances ensures Known(t.drawn, id, s.ledger.issuances[id].badgeHash, Fresh) {
      KnownGrows(s.drawn, t.drawn, id, s.ledger.issuances[id].badgeHash, Fresh);
    }
  }

  // ----- every step keeps the invariant

  lemma NextDrawn(drawn: seq<Drawn>, counter: nat, d: Drawn)
    requires DrawnOk(drawn, counter) && MadeFrom(d) && d.number == counter + 1
    ensures DrawnOk(drawn + [d], counter + 1) && Known(drawn + [d], d.id, d.hash, d.kind)
  {
    assert (drawn + [d])[|drawn|] == d;
  }

  lemma DrawKeeps(s: State, code: string, category: string, year: nat, hash: B.Hash, kind: Kind)
    requires Inv(s) && FourDigits(year)
    ensures Inv(Draw(s, code, category, year, hash, kind)) && Grows(s, Draw(s, code, category, year, hash, kind))
  {
    var t := Draw(s, code, category, year, hash, kind);
    var d := t.drawn[|s.drawn|];
    NextDrawn(s.drawn, s.counter, d);
    AddKeeps(s, t, Builder(d.id, hash, kind));
  }

  ghost predicate SameChain(s: State, t: State) {
    t.ledger == s.ledger && t.mined == s.mined && t.owner == s.owner && t.now == s.now && t.receipts == s.receipts
  }

  ghost predicate OldOrOk(s: State, t: State) {
    && (forall p :: 0 <= p < |t.processes| ==>
         (p < |s.processes| && t.processes[p] == s.processes[p]) || ProcessOk(t, t.processes[p]))
    && (forall id :: id in t.rows ==> (id in s.rows && t.rows[id] == s.rows[id]) || RowOk(t, id))
    && (forall tx :: tx in t.pool ==> (tx in s.pool && t.pool[tx] == s.pool[tx]) || (tx < t.sent && CallOk(t, t.pool[tx])))
  }

  /** A step off the chain keeps the invariant if its new entries do. */
  lemma NewPartsOk(s: State, t: State)
    requires Inv(s) && Grows(s, t) && SameChain(s, t) && DrawnOk(t.drawn, t.counter) && OldOrOk(s, t)
    ensures Inv(t)
  {
    OldPartsKept(s, t);
    assert LedgerOk(t) && MinedOk(t);
  }

  lemma AddGrows(s: State, t: State)
    requires s.drawn <= t.drawn && t == s.(drawn := t.drawn, counter := t.counter, processes := t.processes)
    ensures Grows(s, t)
  {
  }

  lemma AddedIsOk(s: State, t: State, p: Process)
    requires t == s.(drawn := t.drawn, counter := t.counter, processes := s.processes + [p])
    requires ProcessOk(t, p)
    ensures OldOrOk(s, t)
  {
    forall k | 0 <= k < |t.processes|
      ensures (k < |s.processes| && t.processes[k] == s.processes[k]) || ProcessOk(t, t.processes[k])
    {
    }
  }

  /** One more draw and one more process. */
  lemma AddKeeps(s: State, t: State, p: Process)
    requires Inv(s) && s.drawn <= t.drawn && DrawnOk(t.drawn, t.counter)
    requires t == s.(drawn := t.drawn, counter := t.counter, processes := s.processes + [p])
    requires ProcessOk(t, p)
    ensures Inv(t) && Grows(s, t)
  {
    AddGrows(s, t);
    AddedIsOk(s, t, p);
    NewPartsOk(s, t);
  }

  lemma MoveKeeps(s: State, p: nat, next: Process)
    requires Inv(s) && At(s, p) && ProcessOk(s, next)
    ensures Inv(Move(s, p, next)) && Grows(s, Move(s, p, next))
  {
    var t := Move(s, p, next);
    AddGrows(s, t);
    ProcessGrows(s, t, next);
    assert OldOrOk(s, t);
    NewPartsOk(s, t);
  }

  predicate KeepsRow(rows: map<string, Row>, id: string, row: Row) {
    id in rows ==> row.hash == rows[id].hash && (rows[id].revoked.Some? ==> row.revoked.Some?)
  }

  lemma WriteGrows(s: State, id: string, row: Row)
    requires KeepsRow(s.rows, id, row)
    ensures Grows(s, s.(rows := s.rows[id := row]))
  {
  }

  /** A row is written that keeps what an earlier one had. */
  lemma WriteKeeps(s: State, id: string, row: Row)
    requires Inv(s) && KeepsRow(s.rows, id, row)
    requires RowOk(s.(rows := s.rows[id := row]), id)
    ensures Inv(s.(rows := s.rows[id := row])) && Grows(s, s.(rows := s.rows[id := row]))
  {
    var t := s.(rows := s.rows[id := row]);
    WriteGrows(s, id, row);
    assert OldOrOk(s, t);
    NewPartsOk(s, t);
  }

  lemma SendGrows(s: State, call: B.Call)
    ensures Grows(s, Send(s, call))
  {
  }

  lemma SendKeeps(s: State, call: B.Call)
    requires Inv(s) && CallOk(s, call)
    ensures Inv(Send(s, call)) && Grows(s, Send(s, call))
  {
    var t := Send(s, call);
    SendGrows(s, call);
    CallGrows(s, t, call);
    assert OldOrOk(s, t);
    NewPartsOk(s, t);
  }

  lemma GrowsFurther(s: State, t: State, u: State)
    requires Grows(s, t) && Grows(t, u)
    ensures Grows(s, u)
  {
    assert s.drawn <= u.drawn && s.mined <= u.mined;
  }

  lemma SaveKeeps(s: State, p: nat, written: bool)
    requires Inv(s) && Enabled(s, Save(p, written))
    ensures Inv(Take(s, Save(p, written))) && Grows(s, Take(s, Save(p, written)))
  {
    var b := s.processes[p];
    assert ProcessOk(s, b);
    var next := if b.kind.Fresh? && s.chain then Recorder(b.id, b.hash) else Stopped;
    if written {
      var saved := s.(rows := s.rows[b.id := Row(b.hash, None, None)]);
      WriteKeeps(s, b.id, Row(b.hash, None, None));
      MoveKeeps(saved, p, next);
      GrowsFurther(s, saved, Move(saved, p, next));
    } else {
      MoveKeeps(s, p, next);
    }
  }

  lemma SendRecordKeeps(s: State, p: nat)
    requires Inv(s) && Enabled(s, SendRecord(p))
    ensures Inv(Take(s, SendRecord(p))) && Grows(s, Take(s, SendRecord(p)))
  {
    var r := s.processes[p];
    assert ProcessOk(s, r);
    var call := B.RecordIssuance(r.id, r.hash);
    var sent := Send(s, call);
    SendKeeps(s, call);
    SentAwaited(s, call);
    MoveKeeps(sent, p, Awaiting(r.id, r.hash, s.sent));
    GrowsFurther(s, sent, Move(sent, p, Awaiting(r.id, r.hash, s.sent)));
  }

  lemma SentAwaited(s: State, call: B.Call)
    requires Inv(s) && call.RecordIssuance? && CallOk(s, call)
    ensures ProcessOk(Send(s, call), Awaiting(call.id, call.hash, s.sent))
  {
  }

  lemma SeeReceiptKeeps(s: State, p: nat)
    requires Inv(s) && Enabled(s, SeeReceipt(p))
    ensures Inv(Take(s, SeeReceipt(p))) && Grows(s, Take(s, SeeReceipt(p)))
  {
    var a := s.processes[p];
    assert ProcessOk(s, a);
    assert ReceiptOk(s, s.receipts[a.tx]);
    MoveKeeps(s, p, Marking(a.id, a.hash, a.tx));
  }

  lemma MarkKeeps(s: State, p: nat, written: bool)
    requires Inv(s) && Enabled(s, Mark(p, written))
    ensures Inv(Take(s, Mark(p, written))) && Grows(s, Take(s, Mark(p, written)))
  {
    var m := s.processes[p];
    assert ProcessOk(s, m);
    if written && m.id in s.rows {
      var row := s.rows[m.id].(txHash := Some(m.tx));
      var marked := s.(rows := s.rows[m.id := row]);
      MarkedRow(s, m);
      assert RowOk(s, m.id);
      WriteKeeps(s, m.id, row);
      MoveKeeps(marked, p, Stopped);
      GrowsFurther(s, marked, Move(marked, p, Stopped));
    } else {
      MoveKeeps(s, p, Stopped);
    }
  }

  /** The row found by the recorder's identifier has the recorder's hash. */
  lemma MarkedRow(s: State, m: Process)
    requires Inv(s) && m.Marking? && ProcessOk(s, m) && m.id in s.rows
    ensures s.rows[m.id].hash == m.hash
  {
    assert RowOk(s, m.id);
    if Known(s.drawn, m.id, s.rows[m.id].hash, Fresh) {
      KnownOnce(s.drawn, s.counter, m.id, m.hash, Fresh, s.rows[m.id].hash, Fresh);
    } else {
      KnownOnce(s.drawn, s.counter, m.id, m.hash, Fresh, s.rows[m.id].hash, Again);
    }
  }

  lemma FindActiveKeeps(s: State, id: string, reason: string)
    requires Inv(s) && Enabled(s, FindActive(id, reason))
    ensures Inv(Take(s, FindActive(id, reason))) && Grows(s, Take(s, FindActive(id, reason)))
  {
    AddKeeps(s, Take(s, FindActive(id, reason)), Revoking(id, reason));
  }

  lemma SetRevokedKeeps(s: State, p: nat, reported: bool)
    requires Inv(s) && Enabled(s, SetRevoked(p, reported))
    ensures Inv(Take(s, SetRevoked(p, reported))) && Grows(s, Take(s, SetRevoked(p, reported)))
  {
    var r := s.processes[p];
    var row := s.rows[r.id].(revoked := Some(r.reason));
    var updated := s.(rows := s.rows[r.id := row]);
    assert RowOk(s, r.id);
    WriteKeeps(s, r.id, row);
    var next := if reported && s.chain then Revoker(r.id, r.reason) else Stopped;
    MoveKeeps(updated, p, next);
    GrowsFurther(s, updated, Move(updated, p, next));
  }

  lemma SendRevokeKeeps(s: State, p: nat)
    requires Inv(s) && Enabled(s, SendRevoke(p))
    ensures Inv(Take(s, SendRevoke(p))) && Grows(s, Take(s, SendRevoke(p)))
  {
    var r := s.processes[p];
    assert ProcessOk(s, r);
    var sent := Send(s, B.RevokeBadge(r.id, r.reason));
    SendKeeps(s, B.RevokeBadge(r.id, r.reason));
    MoveKeeps(sent, p, Stopped);
    GrowsFurther(s, sent, Move(sent, p, Stopped));
  }

  lemma SkipKeeps(s: State)
    requires Inv(s)
    ensures Inv(Take(s, SkipNumber)) && Grows(s, Take(s, SkipNumber))
  {
    var t := Take(s, SkipNumber);
    AddGrows(s, t);
    assert OldOrOk(s, t);
    NewPartsOk(s, t);
  }

  lemma DropGrows(s: State, tx: nat)
    requires tx in s.pool
    ensures Grows(s, Take(s, Drop(tx)))
  {
  }

  lemma DropKeeps(s: State, tx: nat)
    requires Inv(s) && tx in s.pool
    ensures Inv(Take(s, Drop(tx))) && Grows(s, Take(s, Drop(tx)))
  {
    var t := Take(s, Drop(tx));
    DropGrows(s, tx);
    assert OldOrOk(s, t);
    NewPartsOk(s, t);
  }

  lemma CrashKeeps(s: State)
    requires Inv(s)
    ensures Inv(Take(s, Crash)) && Grows(s, Take(s, Crash))
  {
    var t := Take(s, Crash);
    AddGrows(s, t);
    assert OldOrOk(s, t);
    NewPartsOk(s, t);
  }

  lemma MinedRun(s: State, tx: nat, at: nat)
    requires MinedOk(s) && tx in s.pool && CallOk(s, s.pool[tx])
    ensures MinedOk(Mined(s, tx, at))
  {
    var t := Mined(s, tx, at);
    var txn := B.Transaction(at, s.owner, s.pool[tx]);
    B.RunAppend(B.Deployed(s.owner), s.mined, txn);
    forall k | 0 <= k < |t.mined| ensures Single(t.mined[k], t.owner) {
      if k < |s.mined| {
        assert t.mined[k] == s.mined[k];
      }
    }
  }

  lemma MinedLedger(s: State, tx: nat, at: nat)
    requires LedgerOk(s) && tx in s.pool && CallOk(s, s.pool[tx]) && s.now <= at
    ensures LedgerOk(Mined(s, tx, at)) && B.Preserved(s.ledger, Mined(s, tx, at).ledger)
  {
    var txn := B.Transaction(at, s.owner, s.pool[tx]);
    B.StepKeeps(s.ledger, txn);
    MinedEntries(s, txn);
  }

  lemma MinedGrows(s: State, tx: nat, at: nat)
    requires Enabled(s, Mine(tx, at)) && B.Preserved(s.ledger, Mined(s, tx, at).ledger)
    ensures Grows(s, Mined(s, tx, at))
  {
  }

  lemma MineKeeps(s: State, tx: nat, at: nat)
    requires Inv(s) && Enabled(s, Mine(tx, at))
    ensures Inv(Mined(s, tx, at)) && Grows(s, Mined(s, tx, at))
  {
    var t := Mined(s, tx, at);
    assert CallOk(s, s.pool[tx]);
    MinedRun(s, tx, at);
    MinedLedger(s, tx, at);
    MinedGrows(s, tx, at);
    MinedReceipt(s, tx, at);
    MinedParts(s, t, tx);
  }

  lemma MinedReceipt(s: State, tx: nat, at: nat)
    requires tx in s.pool
    ensures var t := Mined(s, tx, at);
      tx in t.receipts && t.receipts - {tx} == s.receipts - {tx} && ReceiptOk(t, t.receipts[tx])
  {
    var txn := B.Transaction(at, s.owner, s.pool[tx]);
    if txn.call.RecordIssuance? && B.Apply(s.ledger, txn).Some? {
      ReceiptTrue(s.ledger, txn);
    }
  }

  lemma ReceiptTrue(l: B.Ledger, t: B.Transaction)
    requires t.call.RecordIssuance? && B.Apply(l, t).Some?
    ensures Recorded(B.Execute(l, t), t.call.id, t.call.hash)
  {
  }

  lemma MinedParts(s: State, t: State, tx: nat)
    requires Inv(s) && tx in s.pool && Grows(s, t) && LedgerOk(t) && MinedOk(t)
    requires t.drawn == s.drawn && t.counter == s.counter && t.rows == s.rows && t.processes == s.processes && t.sent == s.sent
    requires t.pool == s.pool - {tx} && tx in t.receipts && t.receipts - {tx} == s.receipts - {tx}
    requires ReceiptOk(t, t.receipts[tx])
    ensures Inv(t)
  {
    OldPartsKept(s, t);
    forall x | x in t.receipts ensures x < t.sent && ReceiptOk(t, t.receipts[x]) {
      if x != tx {
        assert x in t.receipts - {tx};
        assert t.receipts[x] == (t.receipts - {tx})[x] == s.receipts[x];
      }
    }
  }

  /** What one mined transaction can add to the ledger. */
  lemma MinedEntries(s: State, t: B.Transaction)
    requires LedgerOk(s) && CallOk(s, t.call)
    ensures forall id :: id in B.Execute(s.ledger, t).issuances ==>
      Known(s.drawn, id, B.Execute(s.ledger, t).issuances[id].badgeHash, Fresh)
    ensures forall id :: id in B.Execute(s.ledger, t).isRevoked ==> RowRevoked(s.rows, id)
  {
  }

  lemma StepKeeps(s: State, step: Step)
    requires Inv(s) && Enabled(s, step)
    ensures Inv(Take(s, step)) && Grows(s, Take(s, step))
  {
    match step
    case DrawNew(code, category, year, hash) => DrawKeeps(s, code, category, year, hash, Fresh);
    case DrawAgain(_, code, category, year, hash) => DrawKeeps(s, code, category, year, hash, Again);
    case Save(p, written) => SaveKeeps(s, p, written);
    case SendRecord(p) => SendRecordKeeps(s, p);
    case SeeReceipt(p) => SeeReceiptKeeps(s, p);
    case Mark(p, written) => MarkKeeps(s, p, written);
    case Mine(tx, at) => MineKeeps(s, tx, at);
    case FindActive(id, reason) => FindActiveKeeps(s, id, reason);
    case SetRevoked(p, reported) => SetRevokedKeeps(s, p, reported);
    case SendRevoke(p) => SendRevokeKeeps(s, p);
    case SkipNumber => SkipKeeps(s);
    case Drop(tx) => DropKeeps(s, tx);
    case GiveUp(p) => MoveKeeps(s, p, Stopped);
    case Crash => CrashKeeps(s);
  }

  lemma {:induction false} RunKeeps(s: State, steps: seq<Step>, last: State)
    requires Inv(s) && Reaches(s, steps, last)
    ensures Inv(last)
    decreases |steps|
  {
    if steps != [] {
      StepKeeps(s, steps[0]);
      RunKeeps(Take(s, steps[0]), steps[1..], last);
    }
  }

  // ----- the database and the chain agree

  /** Main theorem.  In every state a running server can reach, whatever has failed: a badge revoked
      on-chain is recorded on-chain and its row is revoked; a row with a transaction hash has its
      own hash on-chain; no reissued badge is on-chain; and no two draws gave the same
      identifier.  The first part rests on a revoking goroutine keeping the identifier it was
      started with: it holds a string of the request, which Fiber may reuse once the handler has
      returned unless it is configured not to; here a Revoker has its own copy. */
  lemma DatabaseAndChainAgree(chain: bool, owner: B.Address, steps: seq<Step>, s: State)
    requires Reaches(Start(chain, owner), steps, s)
    ensures Inv(s)
    ensures forall id :: id in s.ledger.isRevoked ==> id in s.ledger.isIssued && id in s.rows && s.rows[id].revoked.Some?
    ensures forall id :: id in s.rows && s.rows[id].txHash.Some? ==> Recorded(s.ledger, id, s.rows[id].hash)
    ensures forall g :: 0 <= g < |s.drawn| && s.drawn[g].kind == Again ==> s.drawn[g].id !in s.ledger.isIssued
    ensures forall g, h :: 0 <= g < h < |s.drawn| ==> s.drawn[g].id != s.drawn[h].id
  {
    RunKeeps(Start(chain, owner), steps, s);
    forall id | id in s.rows && s.rows[id].txHash.Some? ensures Recorded(s.ledger, id, s.rows[id].hash) {
      assert RowOk(s, id);
    }
    forall g | 0 <= g < |s.drawn| && s.drawn[g].kind == Again ensures s.drawn[g].id !in s.ledger.isIssued {
      ReissuesStayOffChain(s, g);
    }
    forall g, h | 0 <= g < h < |s.drawn| ensures s.drawn[g].id != s.drawn[h].id {
      if s.drawn[g].id == s.drawn[h].id {
        IdsNeverCollide(s.drawn, s.counter, g, h);
        assert false;
      }
    }
  }

  lemma ReissuesStayOffChain(s: State, g: nat)
    requires Inv(s) && g < |s.drawn| && s.drawn[g].kind == Again
    ensures s.drawn[g].id !in s.ledger.isIssued && s.drawn[g].id !in s.ledger.isRevoked
  {
    var id := s.drawn[g].id;
    assert Known(s.drawn, id, s.drawn[g].hash, Again);
    if id in s.ledger.issuances {
      KnownOnce(s.drawn, s.counter, id, s.drawn[g].hash, Again, s.ledger.issuances[id].badgeHash, Fresh);
      assert false;
    }
  }

  // ----- when a revocation reaches the chain

  predicate Records(t: B.Transaction, id: string) { t.call.RecordIssuance? && t.call.id == id && t.call.hash != 0 }

  predicate Revokes(t: B.Transaction, id: string) { t.call.RevokeBadge? && t.call.id == id }

  ghost predicate RecordMined(ts: seq<B.Transaction>, id: string) {
    exists a :: 0 <= a < |ts| && Records(ts[a], id)
  }

  ghost predicate RevokedAfterRecord(ts: seq<B.Transaction>, id: string) {
    exists a, b :: 0 <= a < b < |ts| && Records(ts[a], id) && Revokes(ts[b], id)
  }

  lemma {:induction false} ChainStatusExactly(owner: B.Address, ts: seq<B.Transaction>, id: string)
    requires forall k :: 0 <= k < |ts| ==> Single(ts[k], owner)
    ensures var l := B.Run(B.Deployed(owner), ts);
      && l.owner == owner
      && (id in l.isIssued <==> RecordMined(ts, id))
      && (id in l.isRevoked <==> RevokedAfterRecord(ts, id))
  {
    if ts != [] {
      var n := |ts| - 1;
      var init, t := ts[..n], ts[n];
      assert ts == init + [t];
      ChainStatusExactly(owner, init, id);
      B.RunAppend(B.Deployed(owner), init, t);
      MoreMined(init, t, id);
      OneMoreTransaction(B.Run(B.Deployed(owner), init), t, id);
    }
  }

  lemma MoreMined(init: seq<B.Transaction>, t: B.Transaction, id: string)
    ensures RecordMined(init + [t], id) <==> RecordMined(init, id) || Records(t, id)
    ensures RevokedAfterRecord(init + [t], id) <==> RevokedAfterRecord(init, id) || (RecordMined(init, id) && Revokes(t, id))
  {
    var ts := init + [t];
    assert ts[|init|] == t;
    assert forall k :: 0 <= k < |init| ==> ts[k] == init[k];
    if RecordMined(init, id) {
      var a :| 0 <= a < |init| && Records(init[a], id);
      assert Records(ts[a], id);
    }
    if RevokedAfterRecord(init, id) {
      var a, b :| 0 <= a < b < |init| && Records(init[a], id) && Revokes(init[b], id);
      assert Records(ts[a], id) && Revokes(ts[b], id);
    }
  }

  lemma OneMoreTransaction(l: B.Ledger, t: B.Transaction, id: string)
    requires Single(t, l.owner)
    ensures B.Execute(l, t).owner == l.owner
    ensures id in B.Execute(l, t).isIssued <==> id in l.isIssued || Records(t, id)
    ensures id in B.Execute(l, t).isRevoked <==> id in l.isRevoked || (id in l.isIssued && Revokes(t, id))
  {
  }

  /** Exactly when a badge is revoked on-chain in a reachable state: a recording of it was mined,
      and after that a revocation of it.  A revocation mined first is lost. */
  lemma RevokedOnChainExactly(chain: bool, owner: B.Address, steps: seq<Step>, s: State, id: string)
    requires Reaches(Start(chain, owner), steps, s)
    ensures id in s.ledger.isRevoked <==> RevokedAfterRecord(s.mined, id)
  {
    RunKeeps(Start(chain, owner), steps, s);
    ChainStatusExactly(s.owner, s.mined, id);
  }

  /** What a server can find out before it revokes: the recording has been mined, as the contract
      says, or as a transaction hash in the row says. */
  predicate RecordingMined(s: State, id: string) {
    id in s.ledger.isIssued || (id in s.rows && s.rows[id].txHash.Some?)
  }

  /** Once the recording has been mined no revocation is lost: in every later state the badge is
      revoked on-chain exactly if it was already, or a revocation of it has been mined since. */
  lemma RevokingAfterRecording(chain: bool, owner: B.Address, steps: seq<Step>, s: State, more: seq<Step>, last: State, id: string)
    requires Reaches(Start(chain, owner), steps, s) && Reaches(s, more, last)
    requires RecordingMined(s, id)
    ensures s.mined <= last.mined
    ensures id in last.ledger.isRevoked <==>
      id in s.ledger.isRevoked || exists k :: |s.mined| <= k < |last.mined| && Revokes(last.mined[k], id)
  {
    RunKeeps(Start(chain, owner), steps, s);
    RunKeeps(s, more, last);
    RunGrows(s, more, last);
    assert id in s.rows ==> RowOk(s, id);
    assert id in s.ledger.isIssued;
    ChainStatusExactly(s.owner, s.mined, id);
    ChainStatusExactly(last.owner, last.mined, id);
    RevokedSince(s.mined, last.mined, id);
  }

  lemma RevokedSince(ts: seq<B.Transaction>, more: seq<B.Transaction>, id: string)
    requires ts <= more && RecordMined(ts, id)
    ensures RevokedAfterRecord(more, id) <==>
      RevokedAfterRecord(ts, id) || exists k :: |ts| <= k < |more| && Revokes(more[k], id)
  {
    var a :| 0 <= a < |ts| && Records(ts[a], id);
    assert Records(more[a], id);
    assert forall k :: 0 <= k < |ts| ==> more[k] == ts[k];
    if RevokedAfterRecord(ts, id) {
      var c, d :| 0 <= c < d < |ts| && Records(ts[c], id) && Revokes(ts[d], id);
      assert Records(more[c], id) && Revokes(more[d], id);
    }
  }

  /** A revocation that is mined takes effect exactly if the badge is recorded on-chain by then. */
  lemma MinedRevocationExactly(chain: bool, owner: B.Address, steps: seq<Step>, s: State, tx: nat, at: nat)
    requires Reaches(Start(chain, owner), steps, s)
    requires Enabled(s, Mine(tx, at)) && s.pool[tx].RevokeBadge?
    ensures s.pool[tx].id in Mined(s, tx, at).ledger.isRevoked <==> s.pool[tx].id in s.ledger.isIssued
  {
    RunKeeps(Start(chain, owner), steps, s);
    OneMoreTransaction(s.ledger, B.Transaction(at, s.owner, s.pool[tx]), s.pool[tx].id);
  }

  lemma ReissueNeverRevoked(chain: bool, owner: B.Address, steps: seq<Step>, s: State, g: nat)
    requires Reaches(Start(chain, owner), steps, s) && g < |s.drawn| && s.drawn[g].kind == Again
    ensures !RevokedAfterRecord(s.mined, s.drawn[g].id)
  {
    RunKeeps(Start(chain, owner), steps, s);
    ReissuesStayOffChain(s, g);
    RevokedOnChainExactly(chain, owner, steps, s, s.drawn[g].id);
  }

  /** Nothing is left to happen. */
  ghost predicate Quiet(s: State) {
    s.pool == map[] && forall p :: 0 <= p < |s.processes| ==> s.processes[p].Stopped?
  }

  lemma {:induction false} ReachesMore(s: State, steps: seq<Step>, mid: State, step: Step)
    requires Reaches(s, steps, mid) && Enabled(mid, step)
    ensures Reaches(s, steps + [step], Take(mid, step))
    decreases |steps|
  {
    if steps == [] {
      assert [step][1..] == [];
      assert [] + [step] == [step];
    } else {
      assert (steps + [step])[1..] == steps[1..] + [step];
      ReachesMore(Take(s, steps[0]), steps[1..], mid, step);
    }
  }

  // ----- runs that lose a revocation

  /** A new badge is saved, and revoked before its recording has been sent.  The client estimates
      the gas of the revocation, which would revert, so nothing is sent. */
  lemma RevokedEarly(owner: B.Address, d: Drawn, reason: string) returns (steps: seq<Step>, s: State)
    requires MadeFrom(d) && d.number == 1 && d.kind == Fresh && reason != ""
    ensures Reaches(Start(true, owner), steps, s)
    ensures s == Start(true, owner).(counter := 1, drawn := [d], rows := map[d.id := Row(d.hash, Some(reason), None)],
      processes := [Recorder(d.id, d.hash), Stopped])
  {
    var s0 := Start(true, owner);
    var s1 := Take(s0, DrawNew(d.code, d.category, d.year, d.hash));
    ReachesMore(s0, [], s0, DrawNew(d.code, d.category, d.year, d.hash));
    steps := [] + [DrawNew(d.code, d.category, d.year, d.hash)];
    assert s1.processes == [Builder(d.id, d.hash, Fresh)] && s1.drawn == [d];
    ReachesMore(s0, steps, s1, Save(0, true));
    steps := steps + [Save(0, true)];
    var s2 := Take(s1, Save(0, true));
    assert s2.processes == [Recorder(d.id, d.hash)];
    var revoked := RevokedInDatabase(s0, steps, s2, d.id, reason);
    steps := revoked.0;
    s := revoked.1;
  }

  /** A badge is revoked in the database, and the transaction is not sent. */
  lemma RevokedInDatabase(start: State, before: seq<Step>, s: State, id: string, reason: string)
    returns (run: (seq<Step>, State))
    requires Reaches(start, before, s) && s.chain && id in s.rows && s.rows[id].revoked.None? && reason != ""
    ensures Reaches(start, run.0, run.1)
    ensures run.1 == s.(rows := s.rows[id := s.rows[id].(revoked := Some(reason))], processes := s.processes + [Stopped])
  {
    var p := |s.processes|;
    ReachesMore(start, before, s, FindActive(id, reason));
    var steps := before + [FindActive(id, reason)];
    var s1 := Take(s, FindActive(id, reason));
    ReachesMore(start, steps, s1, SetRevoked(p, true));
    steps := steps + [SetRevoked(p, true)];
    var s2 := Take(s1, SetRevoked(p, true));
    assert s2.processes == s.processes + [Revoker(id, reason)];
    ReachesMore(start, steps, s2, GiveUp(p));
    run := (steps + [GiveUp(p)], Take(s2, GiveUp(p)));
    assert run.1.processes == s.processes + [Stopped];
  }

  /** Then the recording is mined and the row is marked. */
  lemma RecordedLate(start: State, before: seq<Step>, s: State, id: string, hash: B.Hash, at: nat)
    returns (steps: seq<Step>, last: State)
    requires Reaches(start, before, s) && hash != 0
    requires s.processes == [Recorder(id, hash), Stopped] && s.pool == map[]
    requires s.now <= at && s.ledger == B.Deployed(s.owner) && RowRevoked(s.rows, id)
    ensures Reaches(start, steps, last) && Quiet(last) && last.counter == s.counter && last.chain == s.chain
    ensures RowRevoked(last.rows, id) && last.rows[id].txHash.Some?
    ensures id in last.ledger.isIssued && id !in last.ledger.isRevoked
  {
    var tx := s.sent;
    ReachesMore(start, before, s, SendRecord(0));
    steps := before + [SendRecord(0)];
    var s2 := Take(s, SendRecord(0));
    assert s2.processes == [Awaiting(id, hash, tx), Stopped] && s2.pool == map[tx := B.RecordIssuance(id, hash)];
    ReachesMore(start, steps, s2, Mine(tx, at));
    steps := steps + [Mine(tx, at)];
    steps, last := MarkedLate(start, steps, Take(s2, Mine(tx, at)), id, hash, tx);
  }

  lemma MarkedLate(start: State, before: seq<Step>, s: State, id: string, hash: B.Hash, tx: nat)
    returns (steps: seq<Step>, last: State)
    requires Reaches(start, before, s) && s.processes == [Awaiting(id, hash, tx), Stopped] && s.pool == map[]
    requires tx in s.receipts && s.receipts[tx].succeeded && RowRevoked(s.rows, id)
    ensures Reaches(start, steps, last) && Quiet(last) && last.ledger == s.ledger && last.counter == s.counter && last.chain == s.chain
    ensures RowRevoked(last.rows, id) && last.rows[id].txHash.Some?
  {
    ReachesMore(start, before, s, SeeReceipt(0));
    steps := before + [SeeReceipt(0)];
    var s1 := Take(s, SeeReceipt(0));
    assert s1.processes == [Marking(id, hash, tx), Stopped];
    ReachesMore(start, steps, s1, Mark(0, true));
    steps := steps + [Mark(0, true)];
    last := Take(s1, Mark(0, true));
  }

  /** So a badge can end revoked in the database, recorded and not revoked on-chain, with nothing
      left to happen. */
  lemma RevocationCanBeLost(owner: B.Address, d: Drawn, reason: string, at: nat) returns (steps: seq<Step>, last: State)
    requires MadeFrom(d) && d.number == 1 && d.kind == Fresh && d.hash != 0 && reason != ""
    ensures Reaches(Start(true, owner), steps, last) && Quiet(last) && last.counter == 1 && last.chain
    ensures RowRevoked(last.rows, d.id) && last.rows[d.id].txHash.Some?
    ensures d.id in last.ledger.isIssued && d.id !in last.ledger.isRevoked
  {
    var before, s := RevokedEarly(owner, d, reason);
    steps, last := RecordedLate(Start(true, owner), before, s, d.id, d.hash, at);
  }

  /** No row has the identifier that the next draw will make. */
  lemma NextIdIsNew(s: State, d: Drawn)
    requires Inv(s) && MadeFrom(d) && d.number == s.counter + 1
    ensures d.id !in s.rows
  {
    forall g | 0 <= g < |s.drawn| ensures s.drawn[g].id != d.id {
      NextIdDiffers(s.drawn, s.counter, d, g);
    }
    assert d.id in s.rows ==> RowOk(s, d.id);
  }

  lemma NextIdDiffers(drawn: seq<Drawn>, counter: nat, d: Drawn, g: nat)
    requires DrawnOk(drawn, counter) && MadeFrom(d) && d.number == counter + 1 && g < |drawn|
    ensures drawn[g].id != d.id
  {
    var more := drawn + [d];
    NextDrawn(drawn, counter, d);
    assert more[|drawn|] == d && more[g] == drawn[g];
    if drawn[g].id == d.id {
      IdsNeverCollide(more, counter + 1, g, |drawn|);
      assert false;
    }
  }

  /** The same for a reissue: from every reachable state with a badge in it, that badge can be
      reissued and the reissue revoked, ending with the new row revoked, nothing new on-chain and
      nothing new left to happen. */
  lemma ReissueRevokedInVain(chain: bool, owner: B.Address, before: seq<Step>, s: State, source: string, d: Drawn, reason: string)
    returns (steps: seq<Step>, last: State)
    requires Reaches(Start(chain, owner), before, s) && s.chain && source in s.rows
    requires MadeFrom(d) && d.number == s.counter + 1 && d.kind == Again && reason != ""
    ensures Reaches(Start(chain, owner), steps, last) && (Quiet(s) ==> Quiet(last))
    ensures last.drawn == s.drawn + [d] && RowRevoked(last.rows, d.id) && last.ledger == s.ledger
  {
    RunKeeps(Start(chain, owner), before, s);
    NextIdIsNew(s, d);
    var saved := ReissueSaved(Start(chain, owner), before, s, source, d);
    var run := RevokedInDatabase(Start(chain, owner), saved.0, saved.1, d.id, reason);
    steps, last := run.0, run.1;
    StoppedMore(s, last);
  }

  lemma ReissueSaved(start: State, before: seq<Step>, s: State, source: string, d: Drawn) returns (run: (seq<Step>, State))
    requires Reaches(start, before, s) && source in s.rows && d.id !in s.rows
    requires MadeFrom(d) && d.number == s.counter + 1 && d.kind == Again
    ensures Reaches(start, run.0, run.1)
    ensures run.1 == s.(counter := d.number, drawn := s.drawn + [d], rows := s.rows[d.id := Row(d.hash, None, None)],
      processes := s.processes + [Stopped])
  {
    var p := |s.processes|;
    var draw := DrawAgain(source, d.code, d.category, d.year, d.hash);
    ReachesMore(start, before, s, draw);
    var s1 := Take(s, draw);
    assert s1 == s.(counter := d.number, drawn := s.drawn + [d], processes := s.processes + [Builder(d.id, d.hash, Again)]);
    ReachesMore(start, before + [draw], s1, Save(p, true));
    run := (before + [draw] + [Save(p, true)], Take(s1, Save(p, true)));
    assert run.1.processes == s.processes + [Stopped];
  }

  lemma StoppedMore(s: State, last: State)
    requires last.pool == s.pool && last.processes == s.processes + [Stopped] + [Stopped]
    ensures Quiet(s) ==> Quiet(last)
  {
  }

  // ----- nothing is undone

  lemma {:induction false} RunGrows(s: State, steps: seq<Step>, last: State)
    requires Inv(s) && Reaches(s, steps, last)
    ensures Grows(s, last)
    decreases |steps|
  {
    if steps != [] {
      StepKeeps(s, steps[0]);
      RunGrows(Take(s, steps[0]), steps[1..], last);
      GrowsFurther(s, Take(s, steps[0]), last);
    }
  }

  /** A saved row keeps its hash, a revoked one stays revoked, and what is on-chain stays there,
      through any later run. */
  lemma NothingUndone(chain: bool, owner: B.Address, steps: seq<Step>, s: State, more: seq<Step>, last: State, id: string)
    requires Reaches(Start(chain, owner), steps, s) && Reaches(s, more, last)
    ensures id in s.rows ==> id in last.rows && last.rows[id].hash == s.rows[id].hash
    ensures RowRevoked(s.rows, id) ==> RowRevoked(last.rows, id)
    ensures id in s.ledger.issuances ==> id in last.ledger.issuances && last.ledger.issuances[id] == s.ledger.issuances[id]
    ensures id in s.ledger.isRevoked ==> id in last.ledger.isRevoked
  {
    RunKeeps(Start(chain, owner), steps, s);
    RunGrows(s, more, last);
  }
}
