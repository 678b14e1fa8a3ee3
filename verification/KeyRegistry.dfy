/** The KeyRegistry contract: an append-only history of signing keys with a query for the key
    that was active at a past second, and the database query that must agree with it. */
module KeyRegistry {
  import opened Wrappers
  import opened Multibase

  type Address = nat

  datatype KeyEntry = KeyEntry(
    publicKey: PublicKey,
    activatedAt: nat,
    revokedAt: nat,       // 0 while the key is active
    revokeReason: string)

  datatype Registry = Registry(did: string, owner: Address, history: seq<KeyEntry>)

  datatype Call =
    | RotateKey(newKey: PublicKey)
    | RevokeCurrentKey(reason: string)
    | AddKey(newKey: PublicKey)
    | TransferOwnership(newOwner: Address)

  datatype Transaction = Transaction(now: nat, caller: Address, call: Call)

  datatype Answer = Found(key: PublicKey, activatedAt: nat) | NotFound

  predicate IsZero(key: PublicKey) {
    forall i :: 0 <= i < 32 ==> key[i] == 0
  }

  function Fresh(key: PublicKey, now: nat): KeyEntry {
    KeyEntry(key, now, 0, "")
  }

  // ----- the transactions; None is a revert

  function Deploy(did: string, key: PublicKey, caller: Address, now: nat): Option<Registry> {
    if did == "" || IsZero(key) then None else Some(Registry(did, caller, [Fresh(key, now)]))
  }

  function HasActiveKey(h: seq<KeyEntry>): bool {
    |h| > 0 && h[|h| - 1].revokedAt == 0
  }

  function Revoked(h: seq<KeyEntry>, now: nat, reason: string): seq<KeyEntry>
    requires |h| > 0
  {
    h[|h| - 1 := h[|h| - 1].(revokedAt := now, revokeReason := reason)]
  }

  function Apply(r: Registry, t: Transaction): Option<Registry> {
    var h := r.history;
    if t.caller != r.owner then None
    else match t.call
      case RotateKey(newKey) =>
        if IsZero(newKey) || !HasActiveKey(h) then None
        else Some(r.(history := Revoked(h, t.now, h[|h| - 1].revokeReason) + [Fresh(newKey, t.now)]))
      case RevokeCurrentKey(reason) =>
        if !HasActiveKey(h) then None else Some(r.(history := Revoked(h, t.now, reason)))
      case AddKey(newKey) =>
        if IsZero(newKey) || HasActiveKey(h) then None else Some(r.(history := h + [Fresh(newKey, t.now)]))
      case TransferOwnership(newOwner) =>
        if newOwner == 0 then None else Some(r.(owner := newOwner))
  }

  /** A reverted transaction leaves the contract as it was. */
  function Execute(r: Registry, t: Transaction): Registry {
    match Apply(r, t) case Some(next) => next case None => r
  }

  function Run(r: Registry, ts: seq<Transaction>): Registry
    decreases |ts|
  {
    if ts == [] then r else Run(Execute(r, ts[0]), ts[1..])
  }

  /** Block timestamps never decrease; `start` is that of the block before the run. */
  predicate Timely(start: nat, ts: seq<Transaction>)
    decreases |ts|
  {
    ts == [] || (start <= ts[0].now && Timely(ts[0].now, ts[1..]))
  }

  // ----- the queries

  predicate Covers(e: KeyEntry, t: nat) {
    e.activatedAt <= t && (e.revokedAt == 0 || e.revokedAt > t)
  }

  function KeyAtTime(h: seq<KeyEntry>, t: nat): Answer {
    if h == [] then NotFound
    else
      var last := h[|h| - 1];
      if Covers(last, t) then Found(last.publicKey, last.activatedAt) else KeyAtTime(h[..|h| - 1], t)
  }

  function ActiveKey(h: seq<KeyEntry>): Answer {
    if HasActiveKey(h) then Found(h[|h| - 1].publicKey, h[|h| - 1].activatedAt) else NotFound
  }

  // ----- the shape of every reachable history

  /** Half-open intervals in order, only the last possibly open. */
  ghost predicate Chain(h: seq<KeyEntry>) {
    && (forall i :: 0 <= i < |h| ==> !IsZero(h[i].publicKey))
    && (forall i :: 0 <= i < |h| && h[i].revokedAt != 0 ==> h[i].activatedAt <= h[i].revokedAt)
    && (forall i, j :: 0 <= i < j < |h| ==> 0 < h[i].revokedAt <= h[j].activatedAt)
  }

  /** No timestamp in the history is later than now. */
  ghost predicate Stamped(h: seq<KeyEntry>, now: nat) {
    forall i :: 0 <= i < |h| ==> h[i].activatedAt <= now && h[i].revokedAt <= now
  }

  lemma RevokeKeepsChain(h: seq<KeyEntry>, now: nat, reason: string)
    requires Chain(h) && Stamped(h, now) && 0 < now && HasActiveKey(h)
    ensures Chain(Revoked(h, now, reason)) && Stamped(Revoked(h, now, reason), now)
  {
  }

  lemma AppendKeepsChain(h: seq<KeyEntry>, key: PublicKey, now: nat)
    requires Chain(h) && Stamped(h, now) && !HasActiveKey(h) && !IsZero(key)
    ensures Chain(h + [Fresh(key, now)]) && Stamped(h + [Fresh(key, now)], now)
  {
    var next := h + [Fresh(key, now)];
    forall i, j | 0 <= i < j < |next| ensures 0 < next[i].revokedAt <= next[j].activatedAt {
      if j == |h| && i < |h| - 1 {
        assert h[i].revokedAt <= h[|h| - 1].activatedAt;
      }
    }
  }

  lemma StepKeepsChain(r: Registry, t: Transaction)
    requires Chain(r.history) && Stamped(r.history, t.now) && 0 < t.now
    ensures Chain(Execute(r, t).history) && Stamped(Execute(r, t).history, t.now)
  {
    var h := r.history;
    if Apply(r, t).Some? {
      match t.call
      case RotateKey(newKey) =>
        RevokeKeepsChain(h, t.now, h[|h| - 1].revokeReason);
        AppendKeepsChain(Revoked(h, t.now, h[|h| - 1].revokeReason), newKey, t.now);
      case RevokeCurrentKey(reason) => RevokeKeepsChain(h, t.now, reason);
      case AddKey(newKey) => AppendKeepsChain(h, newKey, t.now);
      case TransferOwnership(_) =>
    }
  }

  lemma {:induction false} RunKeepsChain(r: Registry, start: nat, ts: seq<Transaction>)
    requires Chain(r.history) && Stamped(r.history, start) && 0 < start && Timely(start, ts)
    ensures Chain(Run(r, ts).history)
    ensures Stamped(Run(r, ts).history, if ts == [] then start else ts[|ts| - 1].now)
    decreases |ts|
  {
    if ts != [] {
      StepKeepsChain(r, ts[0]);
      RunKeepsChain(Execute(r, ts[0]), ts[0].now, ts[1..]);
    }
  }

  /** Every history the deployed contract can reach is a chain. */
  lemma ReachableChain(did: string, key: PublicKey, caller: Address, now: nat, ts: seq<Transaction>)
    requires 0 < now && Timely(now, ts)
    requires Deploy(did, key, caller, now).Some?
    ensures Chain(Run(Deploy(did, key, caller, now).value, ts).history)
  {
    RunKeepsChain(Deploy(did, key, caller, now).value, now, ts);
  }

  // ----- what the query returns on a chain

  /** At most one interval covers a second. */
  lemma AtMostOneCovers(h: seq<KeyEntry>, t: nat, i: nat, j: nat)
    requires Chain(h) && i < |h| && j < |h| && Covers(h[i], t) && Covers(h[j], t)
    ensures i == j
  {
  }

  /** The backward scan finds the covering entry, and reverts exactly when there is none. */
  lemma {:induction false} ScanFinds(h: seq<KeyEntry>, t: nat)
    requires Chain(h)
    ensures KeyAtTime(h, t) == NotFound <==> forall i :: 0 <= i < |h| ==> !Covers(h[i], t)
    ensures forall i :: 0 <= i < |h| && Covers(h[i], t) ==> KeyAtTime(h, t) == Found(h[i].publicKey, h[i].activatedAt)
  {
    if h != [] {
      var init := h[..|h| - 1];
      ScanFinds(init, t);
      assert forall i :: 0 <= i < |init| ==> init[i] == h[i];
      if Covers(h[|h| - 1], t) {
        forall i | 0 <= i < |h| && Covers(h[i], t) ensures i == |h| - 1 {
          AtMostOneCovers(h, t, i, |h| - 1);
        }
      }
    }
  }

  /** From the last timestamp on, the query agrees with getActiveKey. */
  lemma ScanIsActiveKey(h: seq<KeyEntry>, t: nat)
    requires Chain(h) && Stamped(h, t)
    ensures KeyAtTime(h, t) == ActiveKey(h)
  {
    ScanFinds(h, t);
    if HasActiveKey(h) {
      assert Covers(h[|h| - 1], t);
    }
  }

  // ----- the past is immutable

  lemma {:induction false} ScanSkipsLater(h: seq<KeyEntry>, e: KeyEntry, t: nat)
    requires t < e.activatedAt
    ensures KeyAtTime(h + [e], t) == KeyAtTime(h, t)
  {
    assert (h + [e])[..|h|] == h;
  }

  lemma RevokingKeepsPast(h: seq<KeyEntry>, now: nat, reason: string, t: nat)
    requires HasActiveKey(h) && t < now
    ensures KeyAtTime(Revoked(h, now, reason), t) == KeyAtTime(h, t)
  {
    assert Revoked(h, now, reason)[..|h| - 1] == h[..|h| - 1];
  }

  /** A transaction at second `now` leaves every answer about an earlier second as it was. */
  lemma PastUnchanged(r: Registry, tx: Transaction, t: nat)
    requires t < tx.now
    ensures KeyAtTime(Execute(r, tx).history, t) == KeyAtTime(r.history, t)
  {
    var h := r.history;
    if Apply(r, tx).Some? {
      match tx.call
      case RotateKey(newKey) =>
        var reason := h[|h| - 1].revokeReason;
        RevokingKeepsPast(h, tx.now, reason, t);
        ScanSkipsLater(Revoked(h, tx.now, reason), Fresh(newKey, tx.now), t);
      case RevokeCurrentKey(reason) =>
        RevokingKeepsPast(h, tx.now, reason, t);
      case AddKey(newKey) =>
        ScanSkipsLater(h, Fresh(newKey, tx.now), t);
      case TransferOwnership(_) =>
    }
  }

  lemma {:induction false} PastImmutable(r: Registry, ts: seq<Transaction>, t: nat)
    requires forall i :: 0 <= i < |ts| ==> t < ts[i].now
    ensures KeyAtTime(Run(r, ts).history, t) == KeyAtTime(r.history, t)
    decreases |ts|
  {
    if ts != [] {
      PastUnchanged(r, ts[0], t);
      PastImmutable(Execute(r, ts[0]), ts[1..], t);
    }
  }

  /** Rotation to the same key in the second that key was activated. */
  predicate SameSecondSameKey(r: Registry, tx: Transaction) {
    tx.call.RotateKey? && ActiveKey(r.history) == Found(tx.call.newKey, tx.now)
  }

  /** Exactly which answers a successful key change alters: those about its own second and every
      later one. */
  lemma ChangesExactly(r: Registry, tx: Transaction, t: nat)
    requires Chain(r.history) && Stamped(r.history, tx.now) && 0 < tx.now
    requires Apply(r, tx).Some? && !tx.call.TransferOwnership?
    ensures KeyAtTime(Execute(r, tx).history, t) == KeyAtTime(r.history, t) <==> t < tx.now || SameSecondSameKey(r, tx)
  {
    if t < tx.now {
      PastUnchanged(r, tx, t);
    } else {
      StepKeepsChain(r, tx);
      ScanIsActiveKey(r.history, t);
      ScanIsActiveKey(Execute(r, tx).history, t);
    }
  }

  // ----- who may change it, and what a change does

  /** The zero key is that of 32 zero bytes. */
  lemma ZeroExactly(key: PublicKey)
    ensures IsZero(key) <==> key == seq(32, _ => 0)
  {
  }

  /** A contract can be deployed for every DID and key but an empty and a zero one; its deployer owns
      it and the key is active from then on. */
  lemma DeploysExactly(did: string, key: PublicKey, caller: Address, now: nat)
    ensures Deploy(did, key, caller, now).Some? <==> did != "" && !IsZero(key)
    ensures did != "" && !IsZero(key) ==> var r := Deploy(did, key, caller, now).value;
      r.did == did && r.owner == caller && |r.history| == 1 && ActiveKey(r.history) == Found(key, now)
  {
  }

  /** The call is one the contract accepts from its owner in this state. */
  predicate Acceptable(r: Registry, call: Call) {
    match call
    case RotateKey(newKey) => !IsZero(newKey) && ActiveKey(r.history).Found?
    case RevokeCurrentKey(_) => ActiveKey(r.history).Found?
    case AddKey(newKey) => !IsZero(newKey) && ActiveKey(r.history) == NotFound
    case TransferOwnership(newOwner) => newOwner != 0
  }

  /** A transaction succeeds exactly if the owner sends it and the call is acceptable. */
  lemma SucceedsExactly(r: Registry, t: Transaction)
    ensures Apply(r, t).Some? <==> t.caller == r.owner && Acceptable(r, t.call)
    ensures t.caller != r.owner ==> Execute(r, t) == r
  {
  }

  /** What a successful transaction changes: rotation and addition make the new key active from now
      on, revocation leaves no active key and keeps the reason, and nothing else changes. */
  lemma Effects(r: Registry, t: Transaction)
    requires Apply(r, t).Some?
    ensures var next := Execute(r, t);
      && next.did == r.did
      && (t.call.TransferOwnership? ==> next.owner == t.call.newOwner && next.history == r.history)
      && (!t.call.TransferOwnership? ==> next.owner == r.owner)
      && (t.call.RotateKey? || t.call.AddKey? ==> ActiveKey(next.history) == Found(t.call.newKey, t.now))
      && (t.call.RevokeCurrentKey? ==> |next.history| == |r.history| && next.history[|r.history| - 1].revokeReason == t.call.reason)
      && (t.call.RevokeCurrentKey? && 0 < t.now ==> ActiveKey(next.history) == NotFound)
      && (t.call.RotateKey? ==> |next.history| == |r.history| + 1)
      && (t.call.RotateKey? ==> next.history[|r.history| - 1].revokedAt == t.now)
      && (t.call.RotateKey? ==> next.history[|r.history| - 1].revokeReason == r.history[|r.history| - 1].revokeReason)
  {
  }

  /** The contract after n transactions of a run. */
  function After(r: Registry, ts: seq<Transaction>, n: nat): Registry
    requires n <= |ts|
  {
    Run(r, ts[..n])
  }

  lemma OneTransaction(r: Registry, t: Transaction)
    ensures Run(r, [t]) == Execute(r, t) && Run(r, []) == r
  {
    assert [t][1..] == [];
    assert Run(Execute(r, t), []) == Execute(r, t);
  }

  lemma {:induction false} RunSplit(r: Registry, ts: seq<Transaction>, n: nat)
    requires n < |ts|
    ensures After(r, ts, n + 1) == Execute(After(r, ts, n), ts[n])
    decreases n
  {
    if n == 0 {
      assert ts[..0] == [] && ts[..1] == [ts[0]];
      OneTransaction(r, ts[0]);
    } else {
      assert ts[..n + 1][1..] == ts[1..][..n] && ts[..n][1..] == ts[1..][..n - 1];
      RunSplit(Execute(r, ts[0]), ts[1..], n - 1);
    }
  }

  /** Transactions of strangers leave the contract as it was, over any run. */
  lemma {:induction false} StrangersChangeNothing(r: Registry, ts: seq<Transaction>)
    requires forall n :: 0 <= n < |ts| ==> ts[n].caller != r.owner
    ensures Run(r, ts) == r
    decreases |ts|
  {
    if ts != [] {
      SucceedsExactly(r, ts[0]);
      StrangersChangeNothing(r, ts[1..]);
    }
  }

  /** The n-th transaction was sent by whoever owned the contract then, and activated this key. */
  ghost predicate ActivatedBy(r: Registry, ts: seq<Transaction>, n: nat, e: KeyEntry) {
    && n < |ts| && ts[n].caller == After(r, ts, n).owner && e.activatedAt == ts[n].now
    && (ts[n].call == RotateKey(e.publicKey) || ts[n].call == AddKey(e.publicKey))
  }

  /** Every entry keeps its key and its activation, and every new one was activated by the owner of
      its time. */
  lemma {:induction false} OwnersActivate(r: Registry, ts: seq<Transaction>, n: nat, k: nat)
    requires n <= |ts| && k < |After(r, ts, n).history|
    ensures |r.history| <= |After(r, ts, n).history|
    ensures var e := After(r, ts, n).history[k];
      if k < |r.history| then e.publicKey == r.history[k].publicKey && e.activatedAt == r.history[k].activatedAt
      else exists m: nat :: m < n && ActivatedBy(r, ts, m, e)
  {
    if n == 0 {
      assert ts[..0] == [];
    } else {
      RunSplit(r, ts, n - 1);
      HistoryGrows(After(r, ts, n - 1), ts[n - 1], k);
      LengthGrows(r, ts, n - 1);
      if k < |After(r, ts, n - 1).history| {
        OwnersActivate(r, ts, n - 1, k);
        if k >= |r.history| {
          var m: nat :| m < n - 1 && ActivatedBy(r, ts, m, After(r, ts, n - 1).history[k]);
          assert ActivatedBy(r, ts, m, After(r, ts, n).history[k]);
        }
      } else {
        assert ActivatedBy(r, ts, n - 1, After(r, ts, n).history[k]);
      }
    }
  }

  lemma {:induction false} LengthGrows(r: Registry, ts: seq<Transaction>, n: nat)
    requires n <= |ts|
    ensures |r.history| <= |After(r, ts, n).history|
  {
    if n == 0 {
      assert ts[..0] == [];
    } else {
      LengthGrows(r, ts, n - 1);
      RunSplit(r, ts, n - 1);
    }
  }

  lemma HistoryGrows(r: Registry, t: Transaction, k: nat)
    requires k < |Execute(r, t).history|
    ensures |r.history| <= |Execute(r, t).history|
    ensures var e := Execute(r, t).history[k];
      if k < |r.history| then e.publicKey == r.history[k].publicKey && e.activatedAt == r.history[k].activatedAt
      else t.caller == r.owner && e.activatedAt == t.now && (t.call == RotateKey(e.publicKey) || t.call == AddKey(e.publicKey))
  {
  }

  // ----- the database query

  datatype Row = Row(issuer: nat, publicKey: PublicKey, activatedAt: nat, revokedAt: Option<nat>)

  function RowOf(issuer: nat, e: KeyEntry): Row {
    Row(issuer, e.publicKey, e.activatedAt, if e.revokedAt == 0 then None else Some(e.revokedAt))
  }

  /** The table holds for this issuer exactly the rows of the history, in any order and beside
      any rows of other issuers. */
  ghost predicate Mirrors(table: multiset<Row>, issuer: nat, h: seq<KeyEntry>) {
    && (forall i :: 0 <= i < |h| ==> RowOf(issuer, h[i]) in table)
    && (forall row :: row in table && row.issuer == issuer ==> exists i :: 0 <= i < |h| && row == RowOf(issuer, h[i]))
  }

  predicate Selected(row: Row, issuer: nat, t: nat) {
    row.issuer == issuer && row.activatedAt <= t && (row.revokedAt == None || row.revokedAt.value > t)
  }

  /** WHERE ..., ORDER BY activated_at DESC, LIMIT 1: any selected row that no selected row
      outranks, or no row if none is selected. */
  ghost predicate QueryReturns(table: multiset<Row>, issuer: nat, t: nat, result: Option<Row>) {
    match result
    case None => forall row :: row in table ==> !Selected(row, issuer, t)
    case Some(best) =>
      && best in table && Selected(best, issuer, t)
      && forall row :: row in table && Selected(row, issuer, t) ==> row.activatedAt <= best.activatedAt
  }

  function AnswerOf(result: Option<Row>): Answer {
    match result
    case None => NotFound
    case Some(row) => Found(row.publicKey, row.activatedAt)
  }

  lemma SelectedCovers(issuer: nat, e: KeyEntry, t: nat)
    ensures Selected(RowOf(issuer, e), issuer, t) <==> Covers(e, t)
  {
  }

  lemma OnlySelected(table: multiset<Row>, issuer: nat, h: seq<KeyEntry>, t: nat, i: nat, row: Row)
    requires Chain(h) && Mirrors(table, issuer, h)
    requires i < |h| && Covers(h[i], t)
    requires row in table && Selected(row, issuer, t)
    ensures row == RowOf(issuer, h[i])
  {
    var j: nat :| j < |h| && row == RowOf(issuer, h[j]);
    SelectedCovers(issuer, h[j], t);
    AtMostOneCovers(h, t, i, j);
  }

  lemma NoneSelected(table: multiset<Row>, issuer: nat, h: seq<KeyEntry>, t: nat, row: Row)
    requires Mirrors(table, issuer, h)
    requires forall i :: 0 <= i < |h| ==> !Covers(h[i], t)
    requires row in table
    ensures !Selected(row, issuer, t)
  {
    if row.issuer == issuer {
      var j: nat :| j < |h| && row == RowOf(issuer, h[j]);
      SelectedCovers(issuer, h[j], t);
    }
  }

  /** The query has a result, and every result it may return is the contract's answer. */
  lemma QueryAgrees(table: multiset<Row>, issuer: nat, h: seq<KeyEntry>, t: nat)
    requires Chain(h) && Mirrors(table, issuer, h)
    ensures forall result :: QueryReturns(table, issuer, t, result) ==> AnswerOf(result) == KeyAtTime(h, t)
    ensures exists result :: QueryReturns(table, issuer, t, result)
  {
    ScanFinds(h, t);
    if i: nat :| i < |h| && Covers(h[i], t) {
      forall row | row in table && Selected(row, issuer, t) ensures row == RowOf(issuer, h[i]) {
        OnlySelected(table, issuer, h, t, i, row);
      }
      SelectedCovers(issuer, h[i], t);
      assert QueryReturns(table, issuer, t, Some(RowOf(issuer, h[i])));
    } else {
      forall row | row in table ensures !Selected(row, issuer, t) {
        NoneSelected(table, issuer, h, t, row);
      }
      assert QueryReturns(table, issuer, t, None);
    }
  }

  predicate SelectedActive(row: Row, issuer: nat) { row.issuer == issuer && row.revokedAt == None }

  /** The query for the active key: WHERE revoked_at IS NULL, ORDER BY activated_at DESC, LIMIT 1. */
  ghost predicate ActiveQueryReturns(table: multiset<Row>, issuer: nat, result: Option<Row>) {
    match result
    case None => forall row :: row in table ==> !SelectedActive(row, issuer)
    case Some(best) =>
      && best in table && SelectedActive(best, issuer)
      && forall row :: row in table && SelectedActive(row, issuer) ==> row.activatedAt <= best.activatedAt
  }

  /** Every result the active-key query may return is the contract's active key. */
  lemma ActiveQueryAgrees(table: multiset<Row>, issuer: nat, h: seq<KeyEntry>, result: Option<Row>)
    requires Chain(h) && Mirrors(table, issuer, h) && ActiveQueryReturns(table, issuer, result)
    ensures AnswerOf(result) == ActiveKey(h)
  {
    if HasActiveKey(h) {
      assert RowOf(issuer, h[|h| - 1]) in table && SelectedActive(RowOf(issuer, h[|h| - 1]), issuer);
    }
    if result.Some? {
      OnlyLastActive(table, issuer, h, result.value);
    }
  }

  lemma OnlyLastActive(table: multiset<Row>, issuer: nat, h: seq<KeyEntry>, row: Row)
    requires Chain(h) && Mirrors(table, issuer, h) && row in table && SelectedActive(row, issuer)
    ensures HasActiveKey(h) && row == RowOf(issuer, h[|h| - 1])
  {
    var i: nat :| i < |h| && row == RowOf(issuer, h[i]);
    var last := h[|h| - 1];
    assert h[i].revokedAt == 0;
    assert i == |h| - 1;
  }

  // ----- the contract

  class Contract {
    var registeredDid: string
    var owner: Address
    var keyHistory: seq<KeyEntry>

    function State(): Registry
      reads this
    {
      Registry(registeredDid, owner, keyHistory)
    }

    constructor (did: string, publicKey: PublicKey, sender: Address, now: nat)
      requires Deploy(did, publicKey, sender, now).Some?
      ensures Deploy(did, publicKey, sender, now) == Some(State())
    {
      registeredDid := did;
      owner := sender;
      keyHistory := [Fresh(publicKey, now)];
    }

    method Rotate(sender: Address, now: nat, newKey: PublicKey) returns (reverted: bool)
      modifies this
      ensures reverted == Apply(old(State()), Transaction(now, sender, RotateKey(newKey))).None?
      ensures State() == Execute(old(State()), Transaction(now, sender, RotateKey(newKey)))
      ensures sender != old(owner) ==> reverted && State() == old(State())
    {
      if sender != owner || IsZero(newKey) || |keyHistory| == 0 {
        return true;
      }
      var current := |keyHistory| - 1;
      if keyHistory[current].revokedAt != 0 {
        return true;
      }
      keyHistory := keyHistory[current := keyHistory[current].(revokedAt := now)];
      keyHistory := keyHistory + [KeyEntry(newKey, now, 0, "")];
      return false;
    }

    method Revoke(sender: Address, now: nat, reason: string) returns (reverted: bool)
      modifies this
      ensures reverted == Apply(old(State()), Transaction(now, sender, RevokeCurrentKey(reason))).None?
      ensures State() == Execute(old(State()), Transaction(now, sender, RevokeCurrentKey(reason)))
      ensures sender != old(owner) ==> reverted && State() == old(State())
    {
      if sender != owner || |keyHistory| == 0 {
        return true;
      }
      var current := |keyHistory| - 1;
      if keyHistory[current].revokedAt != 0 {
        return true;
      }
      keyHistory := keyHistory[current := keyHistory[current].(revokedAt := now)];
      keyHistory := keyHistory[current := keyHistory[current].(revokeReason := reason)];
      return false;
    }

    method Add(sender: Address, now: nat, newKey: PublicKey) returns (reverted: bool)
      modifies this
      ensures reverted == Apply(old(State()), Transaction(now, sender, AddKey(newKey))).None?
      ensures State() == Execute(old(State()), Transaction(now, sender, AddKey(newKey)))
      ensures sender != old(owner) ==> reverted && State() == old(State())
    {
      if sender != owner || IsZero(newKey) {
        return true;
      }
      if |keyHistory| > 0 && keyHistory[|keyHistory| - 1].revokedAt == 0 {
        return true;
      }
      keyHistory := keyHistory + [KeyEntry(newKey, now, 0, "")];
      return false;
    }

    method ChangeOwner(sender: Address, now: nat, newOwner: Address) returns (reverted: bool)
      modifies this
      ensures reverted == Apply(old(State()), Transaction(now, sender, TransferOwnership(newOwner))).None?
      ensures State() == Execute(old(State()), Transaction(now, sender, TransferOwnership(newOwner)))
      ensures sender != old(owner) ==> reverted && State() == old(State())
    {
      if sender != owner || newOwner == 0 {
        return true;
      }
      owner := newOwner;
      return false;
    }

    method GetActiveKey() returns (answer: Answer)
      ensures answer == ActiveKey(keyHistory)
    {
      if |keyHistory| == 0 {
        return NotFound;
      }
      var latest := keyHistory[|keyHistory| - 1];
      if latest.revokedAt != 0 {
        return NotFound;
      }
      return Found(latest.publicKey, latest.activatedAt);
    }

    method GetKeyAtTime(timestamp: nat) returns (answer: Answer)
      ensures answer == KeyAtTime(keyHistory, timestamp)
    {
      var i := |keyHistory|;
      assert keyHistory[..i] == keyHistory;
      while i > 0
        invariant 0 <= i <= |keyHistory|
        invariant KeyAtTime(keyHistory, timestamp) == KeyAtTime(keyHistory[..i], timestamp)
      {
        i := i - 1;
        var entry := keyHistory[i];
        assert keyHistory[..i + 1][..i] == keyHistory[..i];
        if entry.activatedAt <= timestamp {
          if entry.revokedAt == 0 || entry.revokedAt > timestamp {
            return Found(entry.publicKey, entry.activatedAt);
          }
        }
      }
      return NotFound;
    }
  }
}
