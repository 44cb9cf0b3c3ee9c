/** What the expiration job does to the tables, batch after batch. */
module Expiry {
  import opened Prelude
  import opened Rows
  import opened Booking
  import opened Database
  import opened Invariant
  import opened Runs
  import opened Evolution
  import opened Selection

  function ExpiredRow(t: Txn): Txn {
    t.(status := Expired, version := t.version + 1)
  }

  function ExpiryChanges(taken: seq<nat>): seq<Change> {
    seq(|taken|, k requires 0 <= k < |taken| => Change(taken[k], Some(Pending), Expired))
  }

  /** The taken rows, each PENDING before, are now EXPIRED one version later, each with its history row; nothing else
      differs. */
  ghost predicate Expires(db: Db, db': Db, taken: seq<nat>) {
    && Distinct(taken)
    && (forall k :: 0 <= k < |taken| ==> taken[k] < |db.txns| && db.txns[taken[k]].status == Pending)
    && |db'.txns| == |db.txns|
    && (forall i: nat :: i < |db.txns| ==> db'.txns[i] == if i in taken then ExpiredRow(db.txns[i]) else db.txns[i])
    && db'.history == db.history + ExpiryChanges(taken)
    && db' == db.(txns := db'.txns, history := db'.history)
  }

  lemma SecondBatchIsNew(a: Db, b: Db, c: Db, first: seq<nat>, second: seq<nat>)
    requires Expires(a, b, first) && Expires(b, c, second)
    ensures forall k :: 0 <= k < |second| ==> second[k] !in first && second[k] < |a.txns| && a.txns[second[k]].status == Pending
  {
    forall k | 0 <= k < |second|
      ensures second[k] !in first
    {
      assert b.txns[second[k]].status == Pending;
    }
  }

  lemma RowsCompose(a: Db, b: Db, c: Db, first: seq<nat>, second: seq<nat>, i: nat)
    requires Expires(a, b, first) && Expires(b, c, second) && i < |a.txns|
    requires forall k :: 0 <= k < |second| ==> second[k] !in first
    ensures c.txns[i] == if i in first + second then ExpiredRow(a.txns[i]) else a.txns[i]
  {
    assert i in first + second <==> i in first || i in second;
  }

  lemma ExpiresCompose(a: Db, b: Db, c: Db, first: seq<nat>, second: seq<nat>)
    requires Expires(a, b, first) && Expires(b, c, second)
    ensures Expires(a, c, first + second)
  {
    assert ExpiryChanges(first + second) == ExpiryChanges(first) + ExpiryChanges(second);
    SecondBatchIsNew(a, b, c, first, second);
    forall i: nat | i < |a.txns|
      ensures c.txns[i] == if i in first + second then ExpiredRow(a.txns[i]) else a.txns[i]
    {
      RowsCompose(a, b, c, first, second, i);
    }
  }

  // ---------------------------------------------------------------------------------------------
  // One batch
  // ---------------------------------------------------------------------------------------------

  /** No row of the batch has an exhausted version. */
  predicate HaveRoom(txns: seq<Txn>, batch: seq<nat>) {
    forall k :: 0 <= k < |batch| ==> batch[k] < |txns| && txns[batch[k]].version < MAX_INTEGER
  }

  /** No row of a batch is refused by a trigger or a CHECK, unless its 32-bit version is exhausted. */
  lemma {:induction false} BatchIsAccepted(db: Db, batch: seq<nat>, now: int)
    requires RowsHold(db) && Sweepable(db, batch, now)
    ensures if HaveRoom(db.txns, batch) then PlanSweep(db.txns, batch).Ok? else PlanSweep(db.txns, batch) == Err(OutOfRange)
  {
    if batch != [] {
      assert RowHolds(db, batch[0]) && Overdue(db.txns[batch[0]], now);
      BatchIsAccepted(db, batch[1..], now);
    }
  }

  ghost predicate Expiring(db: Db, writes: seq<Write>, batch: seq<nat>) {
    && |writes| == |batch| && Distinct(batch)
    && forall k :: 0 <= k < |batch| ==>
         && batch[k] < |db.txns| && db.txns[batch[k]].status == Pending
         && writes[k] == Write(batch[k], db.txns[batch[k]], ExpiredRow(db.txns[batch[k]]))
  }

  lemma {:induction false} WritesExpire(db: Db, writes: seq<Write>, batch: seq<nat>)
    requires Expiring(db, writes, batch)
    ensures Expires(db, ApplyWrites(db, writes), batch)
    decreases |writes|
  {
    if writes != [] {
      var db1 := ApplyWrite(db, writes[0]);
      assert Expires(db, db1, [batch[0]]);
      assert Expiring(db1, writes[1..], batch[1..]);
      WritesExpire(db1, writes[1..], batch[1..]);
      ExpiresCompose(db, db1, ApplyWrites(db, writes), [batch[0]], batch[1..]);
      assert [batch[0]] + batch[1..] == batch;
    } else {
      assert db.history + ExpiryChanges([]) == db.history;
    }
  }

  lemma PlanIsExpiring(db: Db, batch: seq<nat>, now: int)
    requires Sweepable(db, batch, now) && PlanSweep(db.txns, batch).Ok?
    ensures Expiring(db, PlanSweep(db.txns, batch).value, batch)
  {
  }

  /** A batch expires exactly its rows, or is rolled back because a version is exhausted. */
  lemma SweepExpires(db: Db, batch: seq<nat>, now: int)
    requires RowsHold(db) && Sweepable(db, batch, now)
    ensures if HaveRoom(db.txns, batch)
            then Sweep(db, batch).1 == Swept(|batch|) && Expires(db, Sweep(db, batch).0, batch)
            else Sweep(db, batch) == (db, Rejected(OutOfRange))
  {
    BatchIsAccepted(db, batch, now);
    if PlanSweep(db.txns, batch).Ok? {
      PlanIsExpiring(db, batch, now);
      WritesExpire(db, PlanSweep(db.txns, batch).value, batch);
    }
  }

  /** What one batch does to the rows, field by field. A row changes only if it was PENDING, unlocked and past its
      deadline, and then becomes EXPIRED; at most 200 rows change; if any such row is left, 200 rows changed and none of
      them had a later deadline. */
  ghost predicate ExpiredTheEarliest(before: seq<Txn>, after: seq<Txn>, now: int, locked: set<nat>, count: nat) {
    && |after| == |before|
    && (forall i: nat :: i < |before| && after[i] != before[i] ==>
          && before[i].status == Pending && before[i].expiresAt.Some? && before[i].expiresAt.value < now && i !in locked
          && after[i] == before[i].(status := Expired, version := before[i].version + 1))
    && count == |set i: nat | i < |before| && after[i] != before[i]| <= 200
    && (forall r: nat ::
          (r < |after| && after[r].status == Pending && after[r].expiresAt.Some? && after[r].expiresAt.value < now && r !in locked) ==>
          && count == 200
          && forall i: nat :: i < |before| && after[i] != before[i] ==> before[i].expiresAt.value <= after[r].expiresAt.value)
  }

  lemma {:induction false} DistinctSize(list: seq<nat>)
    requires Distinct(list)
    ensures |set i: nat | i in list| == |list|
  {
    if list == [] {
      assert (set i: nat | i in list) == {};
    } else {
      var last := |list| - 1;
      DistinctSize(list[..last]);
      assert list == list[..last] + [list[last]];
      assert (set i: nat | i in list) == (set i: nat | i in list[..last]) + {list[last]};
    }
  }

  lemma PlannedSweepExpires(db: Db, batch: seq<nat>, now: int)
    requires Sweepable(db, batch, now) && PlanSweep(db.txns, batch).Ok?
    ensures Expires(db, Sweep(db, batch).0, batch)
  {
    PlanIsExpiring(db, batch, now);
    WritesExpire(db, PlanSweep(db.txns, batch).value, batch);
  }

  lemma BatchIsExact(db: Db, batch: seq<nat>, now: int, locked: set<nat>, db': Db)
    requires IsBatch(db.txns, now, locked, batch) && Expires(db, db', batch)
    ensures ExpiredTheEarliest(db.txns, db'.txns, now, locked, |batch|)
  {
    var before, after := db.txns, db'.txns;
    forall i: nat | i < |before|
      ensures after[i] != before[i] <==> i in batch
      ensures i in batch ==> Eligible(before, now, locked, i)
    {
      if i in batch {
        var k :| 0 <= k < |batch| && batch[k] == i;
        assert Eligible(before, now, locked, batch[k]);
      }
    }
    assert (set i: nat | i < |before| && after[i] != before[i]) == (set i: nat | i in batch);
    DistinctSize(batch);
    forall r: nat | r < |after| && after[r].status == Pending && after[r].expiresAt.Some? && after[r].expiresAt.value < now
                    && r !in locked
      ensures |batch| == 200
      ensures forall i: nat :: i < |before| && after[i] != before[i] ==> before[i].expiresAt.value <= after[r].expiresAt.value
    {
      assert r !in batch && Eligible(before, now, locked, r);
    }
  }

  /** A row one sweep has expired is in no later batch, whatever happens in between. */
  lemma NoRowIsSweptTwice(db: Db, batch: seq<nat>, now: int, events: seq<Event>, later: seq<nat>, then_: int)
    requires Inv(db) && Sweepable(db, batch, now) && Sweep(db, batch).1.Swept?
    requires IsRun(Sweep(db, batch).0, events) && Sweepable(Run(Sweep(db, batch).0, events), later, then_)
    ensures forall j, k :: 0 <= j < |batch| && 0 <= k < |later| ==> batch[j] != later[k]
  {
    var db1 := Sweep(db, batch).0;
    SweepExpires(db, batch, now);
    SweepKeepsInv(db, batch, now);
    RunEvolves(db1, events);
    forall j, k | 0 <= j < |batch| && 0 <= k < |later|
      ensures batch[j] != later[k]
    {
      assert batch[j] in batch && db1.txns[batch[j]].status == Expired;
      assert Overdue(Run(db1, events).txns[later[k]], then_);
    }
  }

  // ---------------------------------------------------------------------------------------------
  // Many batches against one unbounded update
  // ---------------------------------------------------------------------------------------------

  predicate ExpiredBy(txns: seq<Txn>, taken: seq<nat>, now: int) {
    && Distinct(taken)
    && forall k :: 0 <= k < |taken| ==> taken[k] < |txns| && Overdue(txns[taken[k]], now) && txns[taken[k]].version < MAX_INTEGER
  }

  lemma SweptRows(db: Db, taken: seq<nat>, now: int)
    requires RowsHold(db) && ExpiredBy(db.txns, taken, now)
    ensures Sweep(db, taken).1 == Swept(|taken|) && Expires(db, Sweep(db, taken).0, taken)
  {
    SweepExpires(db, taken, now);
  }

  /** Two sweeps one after the other are one sweep of all their rows. */
  lemma SweepsCompose(start: Db, taken: seq<nat>, batch: seq<nat>, now: int)
    requires RowsHold(start) && ExpiredBy(start.txns, taken, now)
    requires RowsHold(Sweep(start, taken).0) && ExpiredBy(Sweep(start, taken).0.txns, batch, now)
    ensures ExpiredBy(start.txns, taken + batch, now)
    ensures Sweep(start, taken + batch) == (Sweep(Sweep(start, taken).0, batch).0, Swept(|taken + batch|))
  {
    var db := Sweep(start, taken).0;
    var db' := Sweep(db, batch).0;
    SweptRows(start, taken, now);
    SweptRows(db, batch, now);
    ExpiresCompose(start, db, db', taken, batch);
    SweptRows(start, taken + batch, now);
    assert db'.txns == Sweep(start, taken + batch).0.txns;
  }

  lemma {:induction false} DistinctMultiset(list: seq<Change>, c: Change)
    requires forall j, k :: 0 <= j < k < |list| ==> list[j] != list[k]
    ensures multiset(list)[c] == if c in list then 1 else 0
  {
    if list != [] {
      var last := |list| - 1;
      assert list == list[..last] + [list[last]];
      DistinctMultiset(list[..last], c);
    }
  }

  lemma SameChanges(xs: seq<nat>, ys: seq<nat>)
    requires Distinct(xs) && Distinct(ys) && forall i: nat :: i in xs <==> i in ys
    ensures multiset(ExpiryChanges(xs)) == multiset(ExpiryChanges(ys))
  {
    var a, b := ExpiryChanges(xs), ExpiryChanges(ys);
    forall c: Change
      ensures multiset(a)[c] == multiset(b)[c]
    {
      DistinctMultiset(a, c);
      DistinctMultiset(b, c);
      ChangesOf(xs, c);
      ChangesOf(ys, c);
    }
  }

  lemma ChangesOf(taken: seq<nat>, c: Change)
    ensures c in ExpiryChanges(taken) <==> c.txn in taken && c == Change(c.txn, Some(Pending), Expired)
  {
    if c.txn in taken && c == Change(c.txn, Some(Pending), Expired) {
      var k :| 0 <= k < |taken| && taken[k] == c.txn;
      assert ExpiryChanges(taken)[k] == c;
    }
  }

  /** The order in which rows are expired only shows in the order of the history rows. */
  lemma OrderDoesNotMatter(db: Db, taken: seq<nat>, all: seq<nat>, now: int)
    requires RowsHold(db) && ExpiredBy(db.txns, taken, now) && ExpiredBy(db.txns, all, now)
    requires forall i: nat :: i in taken <==> i in all
    ensures var a, b := Sweep(db, taken).0, Sweep(db, all).0;
            && a.txns == b.txns && multiset(a.history) == multiset(b.history)
            && a == b.(history := a.history)
  {
    SweptRows(db, taken, now);
    SweptRows(db, all, now);
    SameChanges(taken, all);
  }

  // ---------------------------------------------------------------------------------------------
  // The loop over batches, among other clients
  // ---------------------------------------------------------------------------------------------

  /** Every row overdue at this instant that is not locked has room for one more version. */
  predicate CanExpire(txns: seq<Txn>, now: int, locked: set<nat>) {
    forall i: nat :: i < |txns| && Overdue(txns[i], now) && i !in locked ==> txns[i].version < MAX_INTEGER
  }

  predicate OnlyLockedOverdue(txns: seq<Txn>, now: int, locked: set<nat>) {
    forall i: nat :: i < |txns| && Overdue(txns[i], now) ==> i in locked
  }

  function PendingRows(txns: seq<Txn>): set<nat> {
    set i | 0 <= i < |txns| && txns[i].status == Pending
  }

  lemma BatchIsSweepable(db: Db, batch: seq<nat>, now: int, locked: set<nat>)
    requires IsBatch(db.txns, now, locked, batch)
    ensures Sweepable(db, batch, now)
    ensures batch == [] ==> OnlyLockedOverdue(db.txns, now, locked)
  {
    forall k | 0 <= k < |batch|
      ensures batch[k] < |db.txns| && Overdue(db.txns[batch[k]], now)
    {
      assert Eligible(db.txns, now, locked, batch[k]);
    }
    if batch == [] {
      forall i: nat | i < |db.txns| && Overdue(db.txns[i], now)
        ensures i in locked
      {
        assert !Eligible(db.txns, now, locked, i);
      }
    }
  }

  /** What the other clients commit before each batch, whatever the tables then are. */
  type Others = (nat, Db) -> Db

  ghost predicate Proper(others: Others) {
    forall b: nat, db: Db :: Reachable(db) ==> Later(db, others(b, db))
  }

  ghost predicate SilentFrom(others: Others, b: nat) {
    forall c: nat, db: Db :: b <= c ==> others(c, db) == db
  }

  /** After some batches: the rows taken are distinct and still EXPIRED, whatever the other clients have done since. */
  ghost predicate Progress(start: Db, db: Db, taken: seq<nat>) {
    && Reachable(db) && Later(start, db) && Distinct(taken)
    && forall k :: 0 <= k < |taken| ==> taken[k] < |db.txns| && db.txns[taken[k]].status == Expired
  }

  /** A deadline that some reading before batch b had passed. */
  ghost predicate DueAt(t: Txn, clock: nat -> int, b: nat) {
    t.expiresAt.Some? && exists c: nat :: c < b && t.expiresAt.value < clock(c)
  }

  ghost predicate Due(txns: seq<Txn>, clock: nat -> int, taken: seq<nat>, b: nat) {
    forall k :: 0 <= k < |taken| ==> taken[k] < |txns| && DueAt(txns[taken[k]], clock, b)
  }

  lemma DueStays(txns: seq<Txn>, txns': seq<Txn>, clock: nat -> int, taken: seq<nat>, b: nat, b': nat)
    requires Due(txns, clock, taken, b) && b <= b' && |txns| <= |txns'|
    requires forall i :: 0 <= i < |txns| ==> txns'[i].expiresAt == txns[i].expiresAt
    ensures Due(txns', clock, taken, b')
  {
    forall k | 0 <= k < |taken|
      ensures DueAt(txns'[taken[k]], clock, b')
    {
      assert DueAt(txns[taken[k]], clock, b);
    }
  }

  lemma BatchIsDue(db: Db, clock: nat -> int, taken: seq<nat>, b: nat, batch: seq<nat>, db': Db)
    requires Due(db.txns, clock, taken, b) && Sweepable(db, batch, clock(b)) && Expires(db, db', batch)
    ensures Due(db'.txns, clock, taken + batch, b + 1)
  {
    DueStays(db.txns, db'.txns, clock, taken, b, b + 1);
    forall k | 0 <= k < |batch|
      ensures DueAt(db'.txns[batch[k]], clock, b + 1)
    {
      assert Overdue(db.txns[batch[k]], clock(b));
    }
  }

  lemma OthersKeepDue(db: Db, clock: nat -> int, taken: seq<nat>, b: nat, db': Db)
    requires Reachable(db) && Later(db, db') && Due(db.txns, clock, taken, b)
    ensures Due(db'.txns, clock, taken, b)
  {
    ReachableHolds(db);
    var events :| IsRun(db, events) && Run(db, events) == db';
    RunEvolves(db, events);
    DueStays(db.txns, db'.txns, clock, taken, b, b);
  }

  lemma NothingTakenYet(start: Db)
    requires Reachable(start)
    ensures Progress(start, start, [])
  {
    NowIsLater(start);
  }

  lemma OthersKeepProgress(start: Db, db: Db, taken: seq<nat>, db': Db)
    requires Progress(start, db, taken) && Later(db, db')
    ensures Progress(start, db', taken)
  {
    LaterKeepsReachable(db, db');
    LaterIsTransitive(start, db, db');
    ReachableHolds(db);
    var events :| IsRun(db, events) && Run(db, events) == db';
    RunEvolves(db, events);
  }

  /** A batch adds its rows, none of which was taken before, and leaves fewer rows PENDING. */
  lemma BatchKeepsProgress(start: Db, db: Db, taken: seq<nat>, batch: seq<nat>, now: int, db': Db)
    requires Progress(start, db, taken) && Sweepable(db, batch, now) && Sweep(db, batch) == (db', Swept(|batch|))
    ensures Progress(start, db', taken + batch)
    ensures batch != [] ==> PendingRows(db'.txns) < PendingRows(db.txns)
  {
    ReachableRows(db);
    SweepExpires(db, batch, now);
    StepKeepsReachable(db, SweepEvent(batch, now));
    StepIsLater(db, SweepEvent(batch, now));
    LaterIsTransitive(start, db, db');
    forall k | 0 <= k < |batch|
      ensures batch[k] !in taken && batch[k] in batch
    {
      assert Overdue(db.txns[batch[k]], now);
    }
    if batch != [] {
      assert batch[0] in PendingRows(db.txns) && batch[0] !in PendingRows(db'.txns);
    }
  }

  /** A batch that is rolled back met an exhausted version on a row that is not locked. */
  lemma BatchFails(db: Db, batch: seq<nat>, now: int, locked: set<nat>)
    requires Reachable(db) && IsBatch(db.txns, now, locked, batch) && Sweep(db, batch).1.Rejected?
    ensures Sweep(db, batch) == (db, Rejected(OutOfRange)) && !CanExpire(db.txns, now, locked)
  {
    ReachableRows(db);
    BatchIsSweepable(db, batch, now, locked);
    SweepExpires(db, batch, now);
    var k :| 0 <= k < |batch| && db.txns[batch[k]].version >= MAX_INTEGER;
    assert Eligible(db.txns, now, locked, batch[k]);
  }

  // ---------------------------------------------------------------------------------------------
  // The loop over batches, when nobody else commits
  // ---------------------------------------------------------------------------------------------

  ghost predicate Advances(clock: nat -> int) {
    forall a: nat, b: nat :: a <= b ==> clock(a) <= clock(b)
  }

  /** The clock stands still and no row is locked. */
  ghost predicate Still(clock: nat -> int, locked: nat -> set<nat>) {
    forall b: nat :: clock(b) == clock(0) && locked(b) == {}
  }

  /** When all stands still, every batch but the last non-empty one is full. */
  predicate Full(total: nat, b: nat) {
    total == EXPIRATION_BATCH_SIZE * b
  }

  predicate Short(total: nat, b: nat) {
    b > 0 && EXPIRATION_BATCH_SIZE * (b - 1) < total < EXPIRATION_BATCH_SIZE * b
  }

  /** After b batches, the tables are those that one update of all the rows taken so far would leave. */
  ghost predicate InProgress(start: Db, db: Db, clock: nat -> int, locked: nat -> set<nat>, taken: seq<nat>, b: nat) {
    && Reachable(start) && Reachable(db)
    && (b == 0 ==> taken == [])
    && ExpiredBy(start.txns, taken, clock(if b == 0 then 0 else b - 1))
    && Sweep(start, taken) == (db, Swept(|taken|))
    && (Still(clock, locked) ==> Full(|taken|, b) || (Short(|taken|, b) && OnlyLockedOverdue(db.txns, clock(0), {})))
  }

  /** A batch that was not full took every overdue row that was not locked. */
  lemma ShortBatchTakesAll(db: Db, batch: seq<nat>, now: int, locked: set<nat>, db': Db)
    requires IsBatch(db.txns, now, locked, batch) && |batch| < EXPIRATION_BATCH_SIZE && Expires(db, db', batch)
    ensures OnlyLockedOverdue(db'.txns, now, locked)
  {
    forall i: nat | i < |db'.txns| && Overdue(db'.txns[i], now)
      ensures i in locked
    {
      assert i !in batch && (i !in locked ==> Eligible(db.txns, now, locked, i));
    }
  }

  lemma CountBatches(db: Db, now: int, total: nat, b: nat, batch: seq<nat>, db': Db)
    requires Full(total, b) || (Short(total, b) && OnlyLockedOverdue(db.txns, now, {}))
    requires IsBatch(db.txns, now, {}, batch) && batch != [] && Expires(db, db', batch)
    ensures Full(total + |batch|, b + 1) || (Short(total + |batch|, b + 1) && OnlyLockedOverdue(db'.txns, now, {}))
  {
    assert Eligible(db.txns, now, {}, batch[0]);
    if |batch| < EXPIRATION_BATCH_SIZE {
      ShortBatchTakesAll(db, batch, now, {}, db');
    }
  }

  /** A later reading still finds the rows taken so far overdue. */
  lemma StillOverdue(start: Db, db: Db, clock: nat -> int, locked: nat -> set<nat>, taken: seq<nat>, b: nat)
    requires Advances(clock) && InProgress(start, db, clock, locked, taken, b)
    ensures ExpiredBy(start.txns, taken, clock(b))
  {
    assert clock(if b == 0 then 0 else b - 1) <= clock(b);
  }

  /** What the loop amounts to when nobody else commits: one update of the rows taken. When it succeeds, these are all the
      rows overdue at the last reading but locked ones; it fails if and only if one of those has an exhausted version.
      When all stands still there is one batch per 200 rows, and the empty one. */
  ghost predicate OneUpdate(start: Db, db: Db, clock: nat -> int, locked: nat -> set<nat>, taken: seq<nat>, last: nat, ok: bool) {
    && ExpiredBy(start.txns, taken, clock(last))
    && Sweep(start, taken) == (db, Swept(|taken|))
    && (ok <==> CanExpire(start.txns, clock(last), locked(last)))
    && (ok ==> forall i: nat :: i < |start.txns| && Overdue(start.txns[i], clock(last)) ==> i in taken || i in locked(last))
    && (ok && Still(clock, locked) ==> last == (|taken| + EXPIRATION_BATCH_SIZE - 1) / EXPIRATION_BATCH_SIZE)
  }

  lemma FailedBatchEnds(start: Db, db: Db, clock: nat -> int, locked: nat -> set<nat>, taken: seq<nat>, b: nat)
    requires Advances(clock) && InProgress(start, db, clock, locked, taken, b) && !CanExpire(db.txns, clock(b), locked(b))
    ensures OneUpdate(start, db, clock, locked, taken, b, false)
  {
    ReachableRows(start);
    StillOverdue(start, db, clock, locked, taken, b);
    SweptRows(start, taken, clock(b));
    var i: nat :| i < |db.txns| && Overdue(db.txns[i], clock(b)) && i !in locked(b) && db.txns[i].version >= MAX_INTEGER;
    assert db.txns[i] == start.txns[i];
  }

  lemma EmptyBatchEnds(start: Db, db: Db, clock: nat -> int, locked: nat -> set<nat>, taken: seq<nat>, b: nat)
    requires Advances(clock) && InProgress(start, db, clock, locked, taken, b) && OnlyLockedOverdue(db.txns, clock(b), locked(b))
    ensures OneUpdate(start, db, clock, locked, taken, b, true)
  {
    ReachableRows(start);
    StillOverdue(start, db, clock, locked, taken, b);
    SweptRows(start, taken, clock(b));
    forall i: nat | i < |start.txns| && Overdue(start.txns[i], clock(b))
      ensures i in taken || i in locked(b)
    {
      assert i !in taken ==> db.txns[i] == start.txns[i];
    }
  }

  lemma BatchAdvances(start: Db, db: Db, clock: nat -> int, locked: nat -> set<nat>, taken: seq<nat>, b: nat, batch: seq<nat>, db': Db)
    requires Advances(clock) && InProgress(start, db, clock, locked, taken, b) && IsBatch(db.txns, clock(b), locked(b), batch)
    requires batch != [] && Sweep(db, batch) == (db', Swept(|batch|))
    ensures InProgress(start, db', clock, locked, taken + batch, b + 1)
  {
    ReachableRows(start);
    ReachableRows(db);
    StillOverdue(start, db, clock, locked, taken, b);
    BatchIsSweepable(db, batch, clock(b), locked(b));
    SweepExpires(db, batch, clock(b));
    StepKeepsReachable(db, SweepEvent(batch, clock(b)));
    SweepsCompose(start, taken, batch, clock(b));
    if Still(clock, locked) {
      assert clock(b) == clock(0) && locked(b) == {};
      CountBatches(db, clock(0), |taken|, b, batch, db');
    }
  }

  // ---------------------------------------------------------------------------------------------
  // The loop
  // ---------------------------------------------------------------------------------------------

  /** Nobody else commits, and the clock never goes back. */
  ghost predicate Alone(clock: nat -> int, others: Others) {
    SilentFrom(others, 0) && Advances(clock)
  }

  ghost predicate Going(alone: bool, start: Db, db: Db, clock: nat -> int, locked: nat -> set<nat>, taken: seq<nat>, b: nat) {
    Progress(start, db, taken) && Due(db.txns, clock, taken, b) && (alone ==> InProgress(start, db, clock, locked, taken, b))
  }

  /** How the loop ends. On success the result counts the rows taken, each of them once, and only locked rows are left
      overdue; it fails if and only if a row that is overdue and not locked has an exhausted version. */
  ghost predicate Ended(alone: bool, start: Db, db: Db, clock: nat -> int, locked: nat -> set<nat>, taken: seq<nat>,
                        last: nat, r: Result<nat>)
  {
    && Progress(start, db, taken) && Due(db.txns, clock, taken, last)
    && (r.Ok? <==> CanExpire(db.txns, clock(last), locked(last)))
    && (r.Ok? ==> r.value == |taken| && OnlyLockedOverdue(db.txns, clock(last), locked(last)))
    && (r.Err? ==> r.error == OutOfRange)
    && (alone ==> OneUpdate(start, db, clock, locked, taken, last, r.Ok?))
  }

  /** What one more batch does: it is rolled back, or it is the empty one that ends the loop, or it brings it forward. */
  ghost predicate Round(alone: bool, start: Db, db: Db, clock: nat -> int, locked: nat -> set<nat>, taken: seq<nat>, b: nat,
                        batch: seq<nat>, db': Db, expired: Result<nat>)
  {
    match expired
    case Err(_) => Ended(alone, start, db', clock, locked, taken, b, expired)
    case Ok(n) =>
      if n == 0 then Ended(alone, start, db', clock, locked, taken, b, Ok(|taken|))
      else
        && n == |batch|
        && Going(alone, start, db', clock, locked, taken + batch, b + 1)
        && PendingRows(db'.txns) < PendingRows(db.txns)
  }

  lemma OneMoreBatch(alone: bool, start: Db, db: Db, clock: nat -> int, locked: nat -> set<nat>, taken: seq<nat>, b: nat,
                     batch: seq<nat>, db': Db, expired: Result<nat>)
    requires Going(alone, start, db, clock, locked, taken, b) && (alone ==> Advances(clock))
    requires IsBatch(db.txns, clock(b), locked(b), batch)
    requires Sweep(db, batch) == (db', if expired.Ok? then Swept(expired.value) else Rejected(expired.error))
    requires expired.Ok? ==> expired.value == |batch|
    ensures Round(alone, start, db, clock, locked, taken, b, batch, db', expired)
  {
    BatchIsSweepable(db, batch, clock(b), locked(b));
    if expired.Err? {
      BatchFails(db, batch, clock(b), locked(b));
      if alone {
        FailedBatchEnds(start, db, clock, locked, taken, b);
      }
    } else if batch == [] {
      assert db' == db;
      if alone {
        EmptyBatchEnds(start, db, clock, locked, taken, b);
      }
    } else {
      BatchKeepsProgress(start, db, taken, batch, clock(b), db');
      PlannedSweepExpires(db, batch, clock(b));
      BatchIsDue(db, clock, taken, b, batch, db');
      if alone {
        BatchAdvances(start, db, clock, locked, taken, b, batch, db');
      }
    }
  }

  /** How the loop ends, field by field: what is left past its deadline was locked, or had an exhausted version; every row
      taken had a deadline that some reading had passed. */
  ghost predicate LeavesNothingDue(txns: seq<Txn>, clock: nat -> int, locked: set<nat>, taken: seq<nat>, last: nat, r: Result<nat>) {
    && (forall i, j :: 0 <= i < j < |taken| ==> taken[i] != taken[j])
    && (forall k :: 0 <= k < |taken| ==>
          && taken[k] < |txns| && txns[taken[k]].status == Expired && txns[taken[k]].expiresAt.Some?
          && exists b: nat :: b < last && txns[taken[k]].expiresAt.value < clock(b))
    && match r
       case Ok(total) =>
         && total == |taken|
         && forall i: nat ::
              (i < |txns| && txns[i].status == Pending && txns[i].expiresAt.Some? && txns[i].expiresAt.value < clock(last)) ==> i in locked
       case Err(_) =>
         exists i: nat :: i < |txns| && i !in locked && txns[i].status == Pending && txns[i].expiresAt.Some?
                          && txns[i].expiresAt.value < clock(last) && txns[i].version >= 2147483647
  }

  /** Between the first and the last state, when nobody else commits: the rows taken were PENDING with a deadline before the
      last reading and are EXPIRED one version later, each with its history row; every other row and table is untouched. */
  ghost predicate ExpiresExactly(before: Db, after: Db, now: int, taken: seq<nat>) {
    && |after.txns| == |before.txns|
    && (forall i: nat :: i < |before.txns| ==>
          var t := before.txns[i];
          if i in taken then
            && t.status == Pending && t.expiresAt.Some? && t.expiresAt.value < now
            && after.txns[i] == t.(status := Expired, version := t.version + 1)
          else after.txns[i] == t)
    && |after.history| == |before.history| + |taken|
    && (forall k :: 0 <= k < |before.history| ==> after.history[k] == before.history[k])
    && (forall k :: 0 <= k < |taken| ==> after.history[|before.history| + k] == Change(taken[k], Some(Pending), Expired))
    && after == before.(txns := after.txns, history := after.history)
  }

  lemma LoopLeavesNothingDue(alone: bool, start: Db, db: Db, clock: nat -> int, locked: nat -> set<nat>, taken: seq<nat>,
                             last: nat, r: Result<nat>)
    requires Ended(alone, start, db, clock, locked, taken, last, r)
    ensures LeavesNothingDue(db.txns, clock, locked(last), taken, last, r)
  {
    forall k | 0 <= k < |taken|
      ensures exists b: nat :: b < last && db.txns[taken[k]].expiresAt.value < clock(b)
    {
      assert DueAt(db.txns[taken[k]], clock, last);
    }
  }

  lemma LoopExpiresExactly(start: Db, db: Db, clock: nat -> int, locked: nat -> set<nat>, taken: seq<nat>, last: nat, ok: bool)
    requires Reachable(start) && OneUpdate(start, db, clock, locked, taken, last, ok)
    ensures ExpiresExactly(start, db, clock(last), taken)
  {
    ReachableRows(start);
    SweptRows(start, taken, clock(last));
    forall i: nat | i < |start.txns| && i in taken
      ensures Overdue(start.txns[i], clock(last))
    {
      var k :| 0 <= k < |taken| && taken[k] == i;
    }
  }
}
