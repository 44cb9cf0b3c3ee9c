/** Creating a transaction under an idempotency key: insert first, look the key up on any failure. */
module Idempotency {
  import opened Prelude
  import opened Rows
  import opened Database
  import opened Invariant
  import opened Runs
  import opened Evolution
  import opened Service

  /** The transaction of a key, and whether it existed already. */
  datatype Creation = Creation(id: nat, row: Txn, replayed: bool)

  function FindKey(txns: seq<Txn>, key: string): (i: Option<nat>)
    ensures i.Some? ==> i.value < |txns| && txns[i.value].key == key
    ensures i.None? ==> forall k :: 0 <= k < |txns| ==> txns[k].key != key
  {
    var i := LookUp(txns, OnKey(key));
    assert i.None? ==> forall k :: 0 <= k < |txns| ==> !Has(txns[k], OnKey(key));
    i
  }

  /** What the code does with the row of a key, once an insert has failed. */
  function Replay(txns: seq<Txn>, key: string, fingerprint: string, error: Error): Result<Creation> {
    match FindKey(txns, key)
    case None => Err(error)
    case Some(i) => if txns[i].fingerprint == fingerprint then Ok(Creation(i, txns[i], true)) else Err(KeyReused)
  }

  function InsertFirst(db: Db, proposed: Txn, seen: Option<Txn>, now: int): (Db, Result<Creation>) {
    match Insert(db, proposed, seen, now)
    case Ok(db') => (db', Ok(Creation(|db.txns|, db'.txns[|db.txns|], false)))
    case Err(e) => (db, Replay(db.txns, proposed.key, proposed.fingerprint, e))
  }

  /** The specification: a key that exists is never inserted again. */
  function LookUpFirst(db: Db, proposed: Txn, seen: Option<Txn>, now: int): (Db, Result<Creation>) {
    match FindKey(db.txns, proposed.key)
    case Some(i) =>
      (db, if db.txns[i].fingerprint == proposed.fingerprint then Ok(Creation(i, db.txns[i], true)) else Err(KeyReused))
    case None =>
      match Insert(db, proposed, seen, now)
      case Ok(db') => (db', Ok(Creation(|db.txns|, db'.txns[|db.txns|], false)))
      case Err(e) => (db, Err(e))
  }

  /** In every state, whatever parent row the BEFORE INSERT rule saw and whichever check fails first. */
  lemma InsertFirstIsLookUpFirst(db: Db, proposed: Txn, seen: Option<Txn>, now: int)
    ensures InsertFirst(db, proposed, seen, now) == LookUpFirst(db, proposed, seen, now)
  {
  }

  /** A key never designates another row later on. */
  lemma KeyIsStable(db: Db, later: Db, i: nat)
    requires Inv(later) && Evolves(db, later) && i < |db.txns|
    ensures FindKey(later.txns, db.txns[i].key) == Some(i)
  {
  }

  lemma KeyAfterRun(db: Db, events: seq<Event>, n: nat)
    requires Inv(db) && IsRun(db, events) && n < |db.txns|
    ensures var later := Run(db, events);
            && n < |later.txns| && RowEvolves(db.txns[n], later.txns[n])
            && FindKey(later.txns, db.txns[n].key) == Some(n)
            && forall k :: 0 <= k < |later.txns| && later.txns[k].key == db.txns[n].key ==> k == n
  {
    var later := Run(db, events);
    RunKeepsInv(db, events);
    RunEvolves(db, events);
    KeyIsStable(db, later, n);
  }

  /** Each key has at most one row, and once a request has created it every later request with that key gets that row
      back or is told the key was reused; nothing is written, whatever happened to the row or its parent since. */
  lemma ReplayReturnsTheRow(db: Db, proposed: Txn, seen: Option<Txn>, now: int, events: seq<Event>,
                            again: Txn, seenAgain: Option<Txn>, then_: int)
    requires Inv(db) && ProperCreate(db, proposed, seen) && Insert(db, proposed, seen, now).Ok?
    requires IsRun(Insert(db, proposed, seen, now).value, events) && again.key == proposed.key
    ensures var later, n := Run(Insert(db, proposed, seen, now).value, events), |db.txns|;
            && n < |later.txns| && later.txns[n].key == proposed.key
            && (forall k :: 0 <= k < |later.txns| && later.txns[k].key == proposed.key ==> k == n)
            && RowEvolves(Insert(db, proposed, seen, now).value.txns[n], later.txns[n])
            && InsertFirst(later, again, seenAgain, then_)
                 == (later, if again.fingerprint == proposed.fingerprint then Ok(Creation(n, later.txns[n], true))
                            else Err(KeyReused))
  {
    var db1 := Insert(db, proposed, seen, now).value;
    StepKeepsInv(db, CreateEvent(proposed, seen, now));
    KeyAfterRun(db1, events, |db.txns|);
    InsertFirstIsLookUpFirst(Run(db1, events), again, seenAgain, then_);
  }

  /** The look-up after a failed insert reads a later state than the insert did. Whatever committed in between, the
      request gets the answer the specification gives at the insert or at the look-up. */
  lemma RacingLookUp(db: Db, proposed: Txn, seen: Option<Txn>, now: int, events: seq<Event>)
    requires Inv(db) && IsRun(db, events) && Insert(db, proposed, seen, now).Err?
    ensures var later := Run(db, events);
            var answer := Replay(later.txns, proposed.key, proposed.fingerprint, Insert(db, proposed, seen, now).error);
            if FindKey(later.txns, proposed.key).Some? then (later, answer) == LookUpFirst(later, proposed, seen, now)
            else (db, answer) == LookUpFirst(db, proposed, seen, now)
  {
    RunKeepsInv(db, events);
    RunEvolves(db, events);
    var found := FindKey(db.txns, proposed.key);
    if found.Some? {
      KeyIsStable(db, Run(db, events), found.value);
    }
  }

  /** createTransactionIdempotently. */
  method CreateTransactionIdempotently(ledger: Ledger, proposed: Txn, now: int) returns (r: Result<Creation>)
    modifies ledger
    ensures (ledger.State(), r)
         == LookUpFirst(old(ledger.State()), proposed, CurrentParent(old(ledger.State()), proposed), now)
  {
    ghost var db := ledger.State();
    InsertFirstIsLookUpFirst(db, proposed, CurrentParent(db, proposed), now);
    var inserted := ledger.InsertTransaction(proposed, now);
    if inserted.Ok? {
      return Ok(Creation(inserted.value, ledger.txns[inserted.value], false));
    }
    var existing := FindKey(ledger.txns, proposed.key);
    if existing.None? {
      return Err(inserted.error);
    }
    if ledger.txns[existing.value].fingerprint != proposed.fingerprint {
      return Err(KeyReused);
    }
    return Ok(Creation(existing.value, ledger.txns[existing.value], true));
  }
}
