/** What each transition does to the rows and to the balances. */
module Effects {
  import opened Prelude
  import opened Chart
  import opened Journal
  import opened Rows
  import opened Totals
  import opened Booking
  import opened Database
  import opened Invariant
  import opened Preservation
  import opened Runs

  /** What a step adds to the debits minus the credits of an account. */
  function Moved(db: Db, db': Db, a: AccountName): int {
    Net(db'.book.postings, OfAccount(a)) - Net(db.book.postings, OfAccount(a))
  }

  /** Updating rows moves the balances by the change in what these rows contribute. */
  lemma RowsMoveBalances(db: Db, db': Db, i: nat, t: Txn, a: AccountName)
    requires i < |db.txns| && db'.txns == db.txns[i := t] && BalancesHold(db) && BalancesHold(db')
    ensures Moved(db, db', a) == Weigh(Share(a), t) - Weigh(Share(a), db.txns[i])
  {
    assert BalanceHolds(db, a) && BalanceHolds(db', a);
    TotalUpdate(Share(a), db.txns, i, t);
  }

  lemma TwoRowsMoveBalances(db: Db, db': Db, i: nat, t: Txn, p: nat, parent: Txn, a: AccountName)
    requires i < |db.txns| && p < |db.txns| && i != p && db'.txns == db.txns[i := t][p := parent]
    requires BalancesHold(db) && BalancesHold(db')
    ensures Moved(db, db', a) == Weigh(Share(a), t) - Weigh(Share(a), db.txns[i]) + Weigh(Share(a), parent) - Weigh(Share(a), db.txns[p])
  {
    assert BalanceHolds(db, a) && BalanceHolds(db', a);
    TotalUpdate(Share(a), db.txns, i, t);
    TotalUpdate(Share(a), db.txns[i := t], p, parent);
  }

  // ---------------------------------------------------------------------------------------------

  /** What giving an amount back moves: the operator owes less, the merchant is owed less, the fees stay. */
  function RefundShare(amount: int, parent: Txn, a: AccountName): int {
    if a == Clearing(parent.provider) then -amount else if a == Payable(parent.merchant) then amount else 0
  }

  /** Confirming a payment: the operator owes the whole amount, the merchant is owed it less 1.5% rounded down, the rest
      are fees; only the payment's row changes. */
  ghost predicate PaymentEffect(db: Db, db': Db, i: nat) {
    && i < |db.txns|
    && var t := db.txns[i];
       && db'.txns == db.txns[i := t.(status := Succeeded, version := t.version + 1)]
       && forall a :: Moved(db, db', a) ==
            if a == Clearing(t.provider) then t.amount
            else if a == Payable(t.merchant) then -(t.amount - t.amount * 15 / 1000)
            else if a == Fees then -(t.amount * 15 / 1000)
            else 0
  }

  /** Confirming a refund: the merchant is owed that much less and so does the operator owe; no commission is given back.
      The refunded amount of the parent grows by it, never beyond its amount; the parent is then REFUNDED or
      PARTIALLY_REFUNDED, even if it was in dispute. */
  ghost predicate RefundEffect(db: Db, db': Db, i: nat, p: nat) {
    && i < |db.txns| && p < |db.txns| && i != p
    && var t, parent := db.txns[i], db.txns[p];
       var total := parent.refunded + t.amount;
       && total <= parent.amount
       && db'.txns == db.txns[i := t.(status := Succeeded, version := t.version + 1)]
                             [p := parent.(refunded := total, version := parent.version + 1,
                                           status := if total == parent.amount then Refunded else PartiallyRefunded)]
       && forall a :: Moved(db, db', a) == RefundShare(t.amount, parent, a)
  }

  /** Losing a dispute: everything that was left goes back to the operator, the commission stays, and the row is updated
      twice. */
  ghost predicate ReversalEffect(db: Db, db': Db, i: nat) {
    && i < |db.txns|
    && var t := db.txns[i];
       var remaining := t.amount - t.refunded;
       && remaining > 0
       && db'.txns == db.txns[i := t.(status := Status.Reversed, refunded := t.amount, version := t.version + 2)]
       && forall a :: Moved(db, db', a) == RefundShare(remaining, t, a)
  }

  lemma BookedPayment(db: Db, work: Work, i: nat, updated: Txn)
    requires PaymentBooking(db, work, i, updated) && ChecksHold(db.txns[i])
    requires BalancesHold(db) && BalancesHold(Apply(db, work))
    ensures PaymentEffect(db, Apply(db, work), i)
  {
    PaymentBookingShape(db, work, i, updated);
    forall a
      ensures Moved(db, Apply(db, work), a) == Weigh(Share(a), updated) - Weigh(Share(a), db.txns[i])
    {
      RowsMoveBalances(db, Apply(db, work), i, updated, a);
    }
  }

  lemma BookedRefund(db: Db, work: Work, i: nat, updated: Txn, p: nat, parent': Txn)
    requires RefundBooking(db, work, i, updated, p, parent') && Fits(db.txns[i], db.txns[p])
    requires BalancesHold(db) && BalancesHold(Apply(db, work))
    ensures RefundEffect(db, Apply(db, work), i, p)
  {
    RefundBookingShape(db, work, i, updated, p, parent');
    RefundRows(db, work, i, updated, p, parent');
    forall a
      ensures Moved(db, Apply(db, work), a) == RefundShare(db.txns[i].amount, db.txns[p], a)
    {
      TwoRowsMoveBalances(db, Apply(db, work), i, updated, p, parent', a);
    }
  }

  lemma RefundRows(db: Db, work: Work, i: nat, updated: Txn, p: nat, parent': Txn)
    requires RefundBooking(db, work, i, updated, p, parent')
    ensures var t, parent := db.txns[i], db.txns[p];
            var total := parent.refunded + t.amount;
            && total <= parent.amount
            && updated == t.(status := Succeeded, version := t.version + 1)
            && parent' == parent.(refunded := total, version := parent.version + 1,
                                  status := if total == parent.amount then Refunded else PartiallyRefunded)
  {
  }

  lemma BookedReversal(db: Db, work: Work, i: nat, updated: Txn, final: Txn)
    requires Reversal(db, work, i, updated, final) && ChecksHold(db.txns[i]) && db.txns[i].kind == Payment
    requires BalancesHold(db) && BalancesHold(Apply(db, work))
    ensures ReversalEffect(db, Apply(db, work), i)
  {
    ReversalShape(db, work, i, updated, final);
    forall a
      ensures Moved(db, Apply(db, work), a) == Weigh(Share(a), final) - Weigh(Share(a), db.txns[i])
    {
      RowsMoveBalances(db, Apply(db, work), i, final, a);
    }
  }

  lemma CommittedPlan(db: Db, i: nat, req: Request) returns (work: Work)
    requires Reachable(db) && Find(db.txns, req.reference) == Some(i) && Transition(db, req).1.Committed?
    ensures Plan(db, i, req) == Ok(work) && Transition(db, req).0 == Apply(db, work) && Shaped(db, i, req, work)
    ensures work.late.None?
    ensures BalancesHold(db) && BalancesHold(Apply(db, work)) && RowsHold(db)
  {
    ReachableHolds(db);
    TransitionIsItsPlan(db, i, req);
    work := Plan(db, i, req).value;
  }

  lemma PaymentConfirmed(db: Db, i: nat, req: Request)
    requires Reachable(db) && Find(db.txns, req.reference) == Some(i) && Transition(db, req).1.Committed?
    requires db.txns[i].kind == Payment && db.txns[i].status == Pending && req.target == Succeeded
    ensures PaymentEffect(db, Transition(db, req).0, i)
  {
    var work := CommittedPlan(db, i, req);
    var updated :| PaymentBooking(db, work, i, updated) && work.returned == updated;
    assert RowHolds(db, i);
    BookedPayment(db, work, i, updated);
  }

  lemma RefundConfirmed(db: Db, i: nat, req: Request)
    requires Reachable(db) && Find(db.txns, req.reference) == Some(i) && Transition(db, req).1.Committed?
    requires db.txns[i].kind == Refund && db.txns[i].status == Pending && req.target == Succeeded
    ensures db.txns[i].parent.Some? && RefundEffect(db, Transition(db, req).0, i, db.txns[i].parent.value)
  {
    var work := CommittedPlan(db, i, req);
    var p := db.txns[i].parent.value;
    assert RowHolds(db, i) && RowHolds(db, p);
    var updated, parent' :| RefundBooking(db, work, i, updated, p, parent') && work.returned == updated;
    BookedRefund(db, work, i, updated, p, parent');
  }

  lemma DisputeLost(db: Db, i: nat, req: Request)
    requires Reachable(db) && Find(db.txns, req.reference) == Some(i) && Transition(db, req).1.Committed?
    requires db.txns[i].status == Disputed && req.target == Status.Reversed
    ensures ReversalEffect(db, Transition(db, req).0, i)
  {
    var work := CommittedPlan(db, i, req);
    assert RowHolds(db, i);
    var updated, final :| Reversal(db, work, i, updated, final) && work.returned == final;
    BookedReversal(db, work, i, updated, final);
  }

  /** Every other transition posts nothing: it changes the status and the version of its row, and a repeated status
      leaves no history row. In particular a won dispute is not booked again. */
  lemma OtherTransitionsPostNothing(db: Db, i: nat, req: Request)
    requires Reachable(db) && Find(db.txns, req.reference) == Some(i) && Transition(db, req).1.Committed?
    requires !(db.txns[i].status == Pending && req.target == Succeeded)
    requires !(db.txns[i].status == Disputed && req.target == Status.Reversed)
    ensures var t, db' := db.txns[i], Transition(db, req).0;
            && db' == db.(txns := db.txns[i := t.(status := req.target, version := t.version + 1)],
                          history := if t.status == req.target then db.history
                                     else db.history + [Change(i, Some(t.status), req.target)])
  {
    var work := CommittedPlan(db, i, req);
    OneWrite(db, work.writes[0]);
  }
}
