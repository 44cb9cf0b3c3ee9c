/** The one way a sweep is rejected is within reach: repeating a status costs a version each time. */
module Exhaustion {
  import opened Prelude
  import opened Chart
  import opened Rows
  import opened Booking
  import opened Database
  import opened Preservation
  import opened Runs
  import opened Selection
  import opened Expiry

  const REFERENCE := "TXN-20260922-8F3K2Q"
  const EXPIRY: int := 1000

  function PaymentAt(status: Status, version: int): Txn {
    Txn(0, REFERENCE, Payment, status, Wave, 100, "XOF", 0, None, "demo", "key", "fingerprint", version, Some(EXPIRY), 0)
  }

  /** The database with one payment, acknowledged by the operator and then asked to be PENDING again and again. */
  function PendingAt(version: int): Db {
    Initial().(txns := [PaymentAt(Pending, version)],
               history := [Change(0, None, Initiated), Change(0, Some(Initiated), Pending)])
  }

  /** One more request for a status of the only row. */
  lemma StatusRequested(db: Db, req: Request, updated: Txn)
    requires Reachable(db) && |db.txns| == 1 && db.txns[0].reference == req.reference && db.txns[0].version == req.expected
    requires req.target == Pending && db.txns[0].status in {Initiated, Pending}
    requires UpdateRow(db.txns[0], db.txns[0].(status := Pending)) == Ok(updated)
    ensures Reachable(ApplyWrite(db, Write(0, db.txns[0], updated)))
  {
    assert db.txns == [db.txns[0]];
    ReachableHolds(db);
    TransitionIsItsPlan(db, 0, req);
    OneWrite(db, Write(0, db.txns[0], updated));
    StepKeepsReachable(db, TransitionEvent(req));
  }

  lemma InitialIsReachable()
    ensures Reachable(Initial())
  {
    assert IsRun(Initial(), []) && Run(Initial(), []) == Initial();
  }

  lemma PendingIsReachable()
    ensures Reachable(PendingAt(2))
  {
    var row := PaymentAt(Initiated, 1);
    var db1 := Initial().(txns := [row], history := [Change(0, None, Initiated)]);
    InitialIsReachable();
    assert BeforeInsert(row, None, 0) == Ok(row) && ChecksHold(row) && row.merchant in Initial().merchants;
    assert [] + [row] == [row] && [] + [Change(0, None, Initiated)] == [Change(0, None, Initiated)];
    assert Insert(Initial(), row, None, 0) == Ok(db1);
    StepKeepsReachable(Initial(), CreateEvent(row, None, 0));
    StatusRequested(db1, Request(REFERENCE, Pending, 1, None), PaymentAt(Pending, 2));
    assert ApplyWrite(db1, Write(0, row, PaymentAt(Pending, 2))) == PendingAt(2);
  }

  /** Asking for the status a row already has is accepted, and only raises its version. */
  lemma {:induction false} EveryVersionIsReachable(version: int)
    requires 2 <= version <= MAX_INTEGER
    ensures Reachable(PendingAt(version))
    decreases version
  {
    if version == 2 {
      PendingIsReachable();
    } else {
      var db := PendingAt(version - 1);
      EveryVersionIsReachable(version - 1);
      StatusRequested(db, Request(REFERENCE, Pending, version - 1, None), PaymentAt(Pending, version));
      assert ApplyWrite(db, Write(0, db.txns[0], PaymentAt(Pending, version))) == PendingAt(version);
    }
  }

  /** So a state can be reached whose overdue row no sweep can expire: its version is exhausted. */
  lemma SweepCanBeRejected()
    ensures var db := PendingAt(MAX_INTEGER);
            && Reachable(db) && IsBatch(db.txns, EXPIRY + 1, {}, [0]) && !CanExpire(db.txns, EXPIRY + 1, {})
            && Sweep(db, [0]) == (db, Rejected(OutOfRange))
  {
    var db := PendingAt(MAX_INTEGER);
    EveryVersionIsReachable(MAX_INTEGER);
    ReachableRows(db);
    assert Eligible(db.txns, EXPIRY + 1, {}, 0);
    SweepExpires(db, [0], EXPIRY + 1);
    assert Overdue(db.txns[0], EXPIRY + 1) && db.txns[[0][0]].version == MAX_INTEGER;
  }
}
