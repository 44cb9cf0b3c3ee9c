/** PaymentsService: what a payment and a refund ask the database to insert. */
module Payments {
  import opened Prelude
  import opened Chart
  import opened Rows
  import opened Database
  import opened Invariant
  import opened Runs
  import opened Evolution
  import opened Service
  import opened Idempotency
  import Concurrency

  /** Values the service draws or reads for each request: identifiers, the body's fingerprint, the application clock and
      the configured delay. */
  datatype Draw = Draw(uuid: nat, reference: string, key: string, fingerprint: string, clock: int, minutes: int)

  function ExpiresAt(draw: Draw): int {
    draw.clock + draw.minutes * 60_000
  }

  function PaymentRow(provider: Provider, amount: int, currency: string, merchant: string, draw: Draw): Txn {
    Txn(draw.uuid, draw.reference, Payment, Initiated, provider, amount, currency, 0, None, merchant,
        draw.key, draw.fingerprint, 1, Some(ExpiresAt(draw)), 0)
  }

  /** A refund takes its provider, currency and merchant from its parent, never from the caller. */
  function RefundRow(p: nat, parent: Txn, amount: int, draw: Draw): Txn {
    Txn(draw.uuid, draw.reference, Refund, Initiated, parent.provider, amount, parent.currency, 0, Some(p), parent.merchant,
        draw.key, draw.fingerprint, 1, Some(ExpiresAt(draw)), 0)
  }

  lemma PaymentIsProper(db: Db, provider: Provider, amount: int, currency: string, merchant: string, draw: Draw)
    ensures ProperCreate(db, PaymentRow(provider, amount, currency, merchant, draw), None)
  {
  }

  /** The parent may have been read any number of commits before the trigger reads it again. */
  lemma RefundIsProper(db: Db, events: seq<Event>, p: nat, amount: int, draw: Draw)
    requires Inv(db) && IsRun(db, events) && p < |db.txns|
    ensures var later, row := Run(db, events), RefundRow(p, db.txns[p], amount, draw);
            ProperCreate(later, row, CurrentParent(later, row))
  {
    RunEvolves(db, events);
    RunKeepsInv(db, events);
    assert RowHolds(Run(db, events), p);
  }

  /** The inserts the services prepare may be made by any client of the interleaved model, at any later time. */
  lemma PaymentMayArrive(db: Db, provider: Provider, amount: int, currency: string, merchant: string, draw: Draw, now: int)
    ensures Concurrency.TaskFits(db, Concurrency.InsertTask(PaymentRow(provider, amount, currency, merchant, draw), now))
  {
  }

  lemma RefundMayArrive(db: Db, later: Db, p: nat, amount: int, draw: Draw, now: int)
    requires Reachable(db) && Later(db, later) && p < |db.txns|
    ensures Concurrency.TaskFits(later, Concurrency.InsertTask(RefundRow(p, db.txns[p], amount, draw), now))
  {
    ReachableHolds(db);
    var events :| IsRun(db, events) && Run(db, events) == later;
    RunEvolves(db, events);
  }

  // ---------------------------------------------------------------------------------------------
  // What a request gets, field by field; the code above does not use these predicates
  // ---------------------------------------------------------------------------------------------

  ghost predicate Unused(db: Db, draw: Draw) {
    forall k :: 0 <= k < |db.txns| ==>
      db.txns[k].uuid != draw.uuid && db.txns[k].reference != draw.reference && db.txns[k].key != draw.key
  }

  ghost predicate KeyExists(db: Db, key: string) {
    exists k :: 0 <= k < |db.txns| && db.txns[k].key == key
  }

  /** A key that exists: the row it designates, if the fingerprint is the same, and nothing is written. */
  ghost predicate Replayed(before: Db, after: Db, draw: Draw, r: Result<Creation>) {
    && after == before
    && match r
       case Ok(c) =>
         && c.replayed && c.id < |before.txns| && c.row == before.txns[c.id]
         && c.row.key == draw.key && c.row.fingerprint == draw.fingerprint
       case Err(e) =>
         && e == KeyReused
         && exists k :: 0 <= k < |before.txns| && before.txns[k].key == draw.key && before.txns[k].fingerprint != draw.fingerprint
  }

  /** A new row: what does not depend on whether it is a payment or a refund. */
  ghost predicate Stored(before: Db, after: Db, draw: Draw, now: int, c: Creation) {
    && !c.replayed && c.id == |before.txns|
    && after.txns == before.txns + [c.row]
    && after.history == before.history + [Change(|before.txns|, None, Initiated)]
    && after == before.(txns := after.txns, history := after.history)
    && c.row.status == Initiated && c.row.refunded == 0 && c.row.version == 1 && c.row.createdAt == now
    && c.row.uuid == draw.uuid && c.row.reference == draw.reference
    && c.row.key == draw.key && c.row.fingerprint == draw.fingerprint
    && c.row.expiresAt == Some(draw.clock + draw.minutes * 60_000)
  }

  /** The outcome of asking for a payment: a replay if the key exists; otherwise the payment asked for, if and only if its
      amount and currency are well-formed, it expires in the future, its identifiers are unused and its merchant exists. */
  ghost predicate PaymentOutcome(before: Db, after: Db, provider: Provider, amount: int, currency: string, merchant: string,
                                 draw: Draw, now: int, r: Result<Creation>)
  {
    if KeyExists(before, draw.key) then Replayed(before, after, draw, r)
    else
      var wellFormed := && 0 < amount <= 9223372036854775807
                        && |currency| == 3 && (forall k :: 0 <= k < 3 ==> 'A' <= currency[k] <= 'Z')
                        && now < draw.clock + draw.minutes * 60_000;
      match r
      case Err(e) =>
        && after == before
        && e == (if !wellFormed then CheckViolation else if !Unused(before, draw) then Duplicate else Error.ForeignKey)
        && (wellFormed && Unused(before, draw) ==> merchant !in before.merchants)
      case Ok(c) =>
        && wellFormed && Unused(before, draw) && merchant in before.merchants
        && Stored(before, after, draw, now, c)
        && c.row.kind == Payment && c.row.parent == None
        && c.row.provider == provider && c.row.amount == amount && c.row.currency == currency && c.row.merchant == merchant
  }

  /** The outcome of asking for a refund: 404 if there is no such payment of this merchant; a replay if the key exists;
      otherwise the refund asked for, on its parent's provider, currency and merchant, if and only if the parent is a
      payment that still has that much to give back, the refund expires in the future and its identifiers are unused. */
  ghost predicate RefundOutcome(before: Db, after: Db, parentReference: string, amount: int, merchant: string, draw: Draw,
                                now: int, r: Result<Creation>)
  {
    if forall p :: 0 <= p < |before.txns| ==> !(before.txns[p].reference == parentReference && before.txns[p].merchant == merchant)
    then after == before && r == Err(NotFound)
    else if KeyExists(before, draw.key) then Replayed(before, after, draw, r)
    else exists p: nat :: p < |before.txns| && before.txns[p].reference == parentReference && before.txns[p].merchant == merchant
                          && NewRefund(before, after, p, amount, draw, now, r)
  }

  ghost predicate NewRefund(before: Db, after: Db, p: nat, amount: int, draw: Draw, now: int, r: Result<Creation>)
    requires p < |before.txns|
  {
    var parent := before.txns[p];
    var refundable := && parent.kind == Payment && (parent.status == Succeeded || parent.status == PartiallyRefunded)
                      && parent.refunded + amount <= parent.amount;
    var wellFormed := 0 < amount && now < draw.clock + draw.minutes * 60_000;
    match r
    case Err(e) =>
      && after == before
      && e == (if !refundable then BusinessRule else if !wellFormed then CheckViolation else Duplicate)
      && (refundable && wellFormed ==> !Unused(before, draw))
    case Ok(c) =>
      && refundable && wellFormed && Unused(before, draw)
      && Stored(before, after, draw, now, c)
      && c.row.kind == Refund && c.row.parent == Some(p) && c.row.amount == amount
      && c.row.provider == parent.provider && c.row.currency == parent.currency && c.row.merchant == parent.merchant
  }

  /** A payment is created if and only if its amount and currency are well-formed, its merchant exists, its draw is unused
      and its expiry lies ahead of the database clock. */
  lemma PaymentIsCreatedIff(db: Db, provider: Provider, amount: int, currency: string, merchant: string, draw: Draw, now: int)
    ensures Insert(db, PaymentRow(provider, amount, currency, merchant, draw), None, now).Ok? <==>
              && 0 < amount <= 9223372036854775807
              && |currency| == 3 && (forall k :: 0 <= k < 3 ==> 'A' <= currency[k] <= 'Z')
              && merchant in db.merchants
              && Unused(db, draw) && draw.clock + draw.minutes * 60_000 > now
  {
    var row := PaymentRow(provider, amount, currency, merchant, draw).(createdAt := now);
  }

  /** A refund is created if and only if its parent is a payment that still has that much to give back, its draw is
      unused and its expiry lies ahead of the database clock. */
  lemma RefundIsCreatedIff(db: Db, p: nat, amount: int, draw: Draw, now: int)
    requires Inv(db) && p < |db.txns|
    ensures var parent, row := db.txns[p], RefundRow(p, db.txns[p], amount, draw);
            Insert(db, row, CurrentParent(db, row), now).Ok? <==>
              && parent.kind == Payment && parent.status in {Succeeded, PartiallyRefunded}
              && 0 < amount <= parent.amount - parent.refunded
              && Unused(db, draw) && draw.clock + draw.minutes * 60_000 > now
  {
    assert RowHolds(db, p);
    var row := RefundRow(p, db.txns[p], amount, draw).(createdAt := now);
  }

  lemma ReplayOutcome(db: Db, row: Txn, seen: Option<Txn>, draw: Draw, now: int)
    requires row.key == draw.key && row.fingerprint == draw.fingerprint && KeyExists(db, draw.key)
    ensures var (db', r) := LookUpFirst(db, row, seen, now); Replayed(db, db', draw, r)
  {
  }

  lemma NewPaymentOutcome(db: Db, provider: Provider, amount: int, currency: string, merchant: string, draw: Draw, now: int)
    requires !KeyExists(db, draw.key)
    ensures var (db', r) := LookUpFirst(db, PaymentRow(provider, amount, currency, merchant, draw), None, now);
            PaymentOutcome(db, db', provider, amount, currency, merchant, draw, now, r)
  {
  }

  lemma NewRefundOutcome(db: Db, p: nat, amount: int, draw: Draw, now: int)
    requires RowsHold(db) && p < |db.txns| && !KeyExists(db, draw.key)
    ensures var row := RefundRow(p, db.txns[p], amount, draw);
            var (db', r) := LookUpFirst(db, row, CurrentParent(db, row), now);
            NewRefund(db, db', p, amount, draw, now, r)
  {
    assert RowHolds(db, p);
  }

  lemma NotThisMerchants(db: Db, reference: string, merchant: string)
    requires NoClashes(db)
    ensures var found := Find(db.txns, reference);
            (found.None? || db.txns[found.value].merchant != merchant) <==>
              forall p :: 0 <= p < |db.txns| ==> !(db.txns[p].reference == reference && db.txns[p].merchant == merchant)
  {
  }

  // ---------------------------------------------------------------------------------------------

  method CreatePayment(ledger: Ledger, provider: Provider, amount: int, currency: string, merchant: string, draw: Draw, now: int)
    returns (r: Result<Creation>)
    requires Reachable(ledger.State())
    modifies ledger
    ensures Reachable(ledger.State())
    ensures (ledger.State(), r) == LookUpFirst(old(ledger.State()), PaymentRow(provider, amount, currency, merchant, draw), None, now)
    ensures PaymentOutcome(old(ledger.State()), ledger.State(), provider, amount, currency, merchant, draw, now, r)
  {
    ghost var db := ledger.State();
    var row := PaymentRow(provider, amount, currency, merchant, draw);
    PaymentIsProper(db, provider, amount, currency, merchant, draw);
    StepKeepsReachable(db, CreateEvent(row, None, now));
    if KeyExists(db, draw.key) {
      ReplayOutcome(db, row, None, draw, now);
    } else {
      NewPaymentOutcome(db, provider, amount, currency, merchant, draw, now);
    }
    r := CreateTransactionIdempotently(ledger, row, now);
  }

  method CreateRefund(ledger: Ledger, parentReference: string, amount: int, merchant: string, draw: Draw, now: int)
    returns (r: Result<Creation>)
    requires Reachable(ledger.State())
    modifies ledger
    ensures Reachable(ledger.State())
    ensures var db := old(ledger.State());
            var found := Find(db.txns, parentReference);
            if found.None? || db.txns[found.value].merchant != merchant then r == Err(NotFound) && ledger.State() == db
            else
              var row := RefundRow(found.value, db.txns[found.value], amount, draw);
              (ledger.State(), r) == LookUpFirst(db, row, CurrentParent(db, row), now)
    ensures RefundOutcome(old(ledger.State()), ledger.State(), parentReference, amount, merchant, draw, now, r)
  {
    ghost var db := ledger.State();
    ReachableHolds(db);
    NotThisMerchants(db, parentReference, merchant);
    var found := Find(ledger.txns, parentReference);
    if found.None? || ledger.txns[found.value].merchant != merchant {
      return Err(NotFound);
    }
    var row := RefundRow(found.value, ledger.txns[found.value], amount, draw);
    RefundIsProper(db, [], found.value, amount, draw);
    StepKeepsReachable(db, CreateEvent(row, CurrentParent(db, row), now));
    if KeyExists(db, draw.key) {
      ReplayOutcome(db, row, CurrentParent(db, row), draw, now);
    } else {
      NewRefundOutcome(db, found.value, amount, draw, now);
    }
    r := CreateTransactionIdempotently(ledger, row, now);
  }
}
