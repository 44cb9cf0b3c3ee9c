/** The promises of the design, for every database state the service can reach. */
module Theorems {
  import opened Prelude
  import opened Chart
  import opened Journal
  import opened Balance
  import opened Rows
  import opened Totals
  import opened Booking
  import opened Database
  import opened Invariant
  import opened Runs
  import opened Evolution
  import opened Refusals

  // ---------------------------------------------------------------------------------------------
  // Money
  // ---------------------------------------------------------------------------------------------

  /** The balance column of v_account_balances. */
  function ViewBalance(db: Db, a: AccountName): int
    requires a in db.accounts
  {
    if db.accounts[a].kind in {Asset, Expense} then Net(db.book.postings, OfAccount(a)) else -Net(db.book.postings, OfAccount(a))
  }

  /** Balances derived from postings equal a closed form over the transactions: what each operator still owes, what
      each merchant is owed, and the commissions. So no clearing account is ever negative, and no payable account is
      ever below minus the commissions taken from that merchant. */
  lemma BalancesAreAClosedForm(db: Db, p: Provider, m: string)
    requires Reachable(db) && m in db.merchants
    ensures Clearing(p) in db.accounts && Payable(m) in db.accounts && Fees in db.accounts
    ensures ViewBalance(db, Clearing(p)) == Total(Share(Clearing(p)), db.txns) >= 0
    ensures ViewBalance(db, Payable(m)) == Total(PayableShare(m), db.txns) - Total(CommissionFrom(m), db.txns)
    ensures ViewBalance(db, Payable(m)) >= -Total(CommissionFrom(m), db.txns)
    ensures ViewBalance(db, Fees) == Total(CommissionTaken, db.txns) >= 0
  {
    ReachableHolds(db);
    assert BalanceHolds(db, Clearing(p)) && BalanceHolds(db, Payable(m)) && BalanceHolds(db, Fees);
    SharesAreNatural(db, p, m);
    PayableSplits(db.txns, m);
  }

  lemma SharesAreNatural(db: Db, p: Provider, m: string)
    requires RowsHold(db)
    ensures Total(Share(Clearing(p)), db.txns) >= 0 && Total(PayableShare(m), db.txns) >= 0
    ensures Total(Share(Fees), db.txns) == -Total(CommissionTaken, db.txns) <= 0
  {
    forall k | 0 <= k < |db.txns|
      ensures db.txns[k].amount > 0
      ensures Weigh(Share(Clearing(p)), db.txns[k]) >= 0 && Weigh(PayableShare(m), db.txns[k]) >= 0
    {
      assert RowHolds(db, k);
    }
    TotalIsNatural(Share(Clearing(p)), db.txns);
    TotalIsNatural(PayableShare(m), db.txns);
    CommissionTotals(db.txns);
  }

  /** The fee balance against the gross of the booked payments. */
  lemma AggregateCommission(db: Db)
    requires Reachable(db)
    ensures Fees in db.accounts
    ensures var f, g, n := ViewBalance(db, Fees), Total(Gross, db.txns), Total(BookedPayments, db.txns);
            1000 * f <= 15 * g && (n > 0 ==> 15 * g < 1000 * (f + n))
  {
    ReachableHolds(db);
    assert BalanceHolds(db, Fees);
    forall k | 0 <= k < |db.txns|
      ensures db.txns[k].amount > 0
    {
      assert RowHolds(db, k);
    }
    CommissionTotals(db.txns);
  }

  /** Debits equal credits in every currency, and the trial balance view is empty. */
  lemma LedgerIsBalanced(db: Db, c: string)
    requires Reachable(db)
    ensures Balanced(db.book.postings, c) && !ViewReports(db.book.postings, c) && !OneSided(db.book.postings, c)
  {
    ReachableHolds(db);
    GlobalBalance(db.book, c);
    ViewIsEmpty(db.book, c);
  }

  /** The refunded amount of a payment is its confirmed refunds, plus, once reversed, the reversal entry; together
      they never exceed the amount, although creation checks and confirmations happen at different times. */
  lemma RefundsAreConserved(db: Db, i: nat)
    requires Reachable(db) && i < |db.txns| && db.txns[i].kind == Payment
    ensures var t := db.txns[i];
            var confirmed, reversal := Total(RefundsOf(i), db.txns), CreditedBy(db.book, i, Clearing(t.provider));
            && (t.status != Status.Reversed ==> reversal == 0 && t.refunded == confirmed)
            && (t.status == Status.Reversed ==> reversal > 0 && confirmed + reversal == t.amount)
            && 0 <= confirmed <= t.amount
  {
    ReachableHolds(db);
    assert RowHolds(db, i) && RefundHolds(db, i) && DisputeHolds(db.txns, i);
    forall k | 0 <= k < |db.txns|
      ensures Weigh(RefundsOf(i), db.txns[k]) >= 0
    {
      assert RowHolds(db, k);
    }
    TotalIsNatural(RefundsOf(i), db.txns);
  }

  /** A disputed payment always has something left, so a lost dispute never finds nothing to take back. */
  lemma DisputedHasSomethingLeft(db: Db, req: Request)
    requires Reachable(db)
    ensures forall i :: 0 <= i < |db.txns| && db.txns[i].status == Disputed ==> db.txns[i].refunded < db.txns[i].amount
    ensures Transition(db, req).1 != Rejected(NothingToTakeBack)
  {
    ReachableHolds(db);
    forall i | 0 <= i < |db.txns| && db.txns[i].status == Disputed
      ensures db.txns[i].refunded < db.txns[i].amount
    {
      assert DisputeHolds(db.txns, i);
    }
    if Transition(db, req).1.Rejected? {
      TransitionIsRefusedOnlyFor(db, req);
    }
  }

  /** Exactly-once booking: no entry before the money moves, one once it has, two if and only if reversed; a refund has
      one if and only if it succeeded. */
  lemma BookedExactlyOnce(db: Db, i: nat)
    requires Reachable(db) && i < |db.txns|
    ensures var t, n := db.txns[i], |EntriesOf(db.book.entries, i)|;
            && (n == 0 <==> t.status in {Initiated, Pending, Failed, Expired})
            && (n == 2 <==> t.status == Status.Reversed)
            && n <= 2
            && (t.kind == Refund ==> (n == 1 <==> t.status == Succeeded) && n <= 1)
  {
    ReachableHolds(db);
    assert CountHolds(db, i) && RowHolds(db, i);
  }

  /** Every account a booked payment uses exists and is in the currency of the payment; so a payment in a currency
      other than its accounts' is never booked. */
  lemma BookedInTheAccountsCurrency(db: Db, i: nat)
    requires Reachable(db) && i < |db.txns| && Booked(db.txns[i].status)
    ensures CurrencyMatches(db, db.txns[i])
  {
    ReachableHolds(db);
    assert RowHolds(db, i);
  }

  // ---------------------------------------------------------------------------------------------
  // Which transitions commit
  // ---------------------------------------------------------------------------------------------

  predicate Open(db: Db, a: AccountName, currency: string) {
    a in db.accounts && db.accounts[a].active && db.accounts[a].currency == currency
  }

  predicate AccountsOpen(db: Db, t: Txn) {
    Open(db, Clearing(t.provider), t.currency) && Open(db, Payable(t.merchant), t.currency)
  }

  /** Room for some more updates in the 32-bit version column. */
  predicate Room(t: Txn, updates: nat) {
    t.version + updates <= 2147483647
  }

  /** Exactly when a requested status is reached, read off the rows before the request. */
  predicate Reaches(db: Db, i: nat, target: Status)
    requires i < |db.txns|
  {
    var t := db.txns[i];
    match (t.status, target)
    case (Initiated, Pending) => Room(t, 1)
    case (Initiated, Failed) => Room(t, 1)
    case (Pending, Failed) => Room(t, 1)
    case (Pending, Expired) => Room(t, 1)
    case (Pending, Succeeded) =>
      && Room(t, 1) && AccountsOpen(db, t)
      && if t.kind == Payment then t.amount >= 67 ==> Open(db, Fees, t.currency)
         else
           t.parent.Some? && t.parent.value < |db.txns| &&
           var parent := db.txns[t.parent.value];
           && Room(parent, 1)
           && parent.refunded + t.amount <= parent.amount
           && (parent.status == Disputed ==> parent.refunded + t.amount < parent.amount)
    case (Succeeded, Disputed) => t.kind == Payment && Room(t, 1)
    case (PartiallyRefunded, Disputed) => Room(t, 1)
    case (Disputed, Succeeded) => t.refunded == 0 && Room(t, 1)
    case (Disputed, PartiallyRefunded) => t.refunded > 0 && Room(t, 1)
    case (Disputed, Reversed) => Room(t, 2) && AccountsOpen(db, t)
    case _ => t.status == target && Room(t, 1)
  }

  /** A status can be reached exactly when nothing refuses it. */
  lemma ReachesUnlessRefused(db: Db, i: nat, target: Status)
    requires i < |db.txns| && RowHolds(db, i) && DisputeHolds(db.txns, i)
    requires db.txns[i].parent.Some? ==> DisputeHolds(db.txns, db.txns[i].parent.value)
    requires db.txns[i].parent.Some? ==> ChecksHold(db.txns[db.txns[i].parent.value])
    requires !(db.txns[i].status == Expired && target == Succeeded)
    ensures Reaches(db, i, target) <==> Refusal(db, i, target).None?
  {
    var t := db.txns[i];
    match (t.status, target) {
      case (Pending, Succeeded) =>
      case (Disputed, Reversed) =>
      case _ =>
    }
  }

  /** The rows a request may touch meet their part of the invariant. */
  lemma RowAndParentHold(db: Db, i: nat)
    requires Inv(db) && i < |db.txns|
    ensures RowHolds(db, i) && DisputeHolds(db.txns, i)
    ensures db.txns[i].parent.Some? ==> DisputeHolds(db.txns, db.txns[i].parent.value) && ChecksHold(db.txns[db.txns[i].parent.value])
  {
    assert RowHolds(db, i);
    if db.txns[i].parent.Some? {
      assert RowHolds(db, db.txns[i].parent.value);
    }
  }

  /** A transition request commits if and only if the reference exists, the version is current and the status can be
      reached; it is recorded as a late acknowledgment if and only if it asks SUCCEEDED of an EXPIRED transaction. */
  lemma TransitionCommitsIff(db: Db, req: Request)
    requires Reachable(db)
    ensures var found, reply := Find(db.txns, req.reference), Transition(db, req).1;
            && (reply.Committed? <==> found.Some? && db.txns[found.value].version == req.expected
                                      && !(db.txns[found.value].status == Expired && req.target == Succeeded)
                                      && Reaches(db, found.value, req.target))
            && (reply.LateRecorded? <==> found.Some? && db.txns[found.value].version == req.expected
                                         && db.txns[found.value].status == Expired && req.target == Succeeded)
            && (reply.Committed? || reply.LateRecorded? || reply.Rejected?)
  {
    ReachableHolds(db);
    var found := Find(db.txns, req.reference);
    if found.Some? {
      AnswerHolds(db, found.value, req);
      if !(db.txns[found.value].status == Expired && req.target == Succeeded) {
        RowAndParentHold(db, found.value);
        ReachesUnlessRefused(db, found.value, req.target);
      }
    }
  }

  lemma RefusalsAreFew(db: Db, i: nat, target: Status)
    requires Inv(db) && i < |db.txns| && Refusal(db, i, target).Some?
    ensures Refusal(db, i, target).value in {ForbiddenTransition, CheckViolation, OutOfRange, ExceedsRefundable, InactiveAccount,
                                             CurrencyMismatch}
  {
    assert RowHolds(db, i);
  }

  /** The bookings always find their accounts, and the entries they draft always balance: the errors for a missing
      account, an unbalanced entry, a decreasing refunded amount or a modified frozen field never occur, and "not found"
      only ever means an unknown reference. */
  lemma TransitionIsRefusedOnlyFor(db: Db, req: Request)
    requires Reachable(db) && Transition(db, req).1.Rejected?
    ensures Transition(db, req).1.error in {NotFound, PreconditionFailed, ForbiddenTransition, CheckViolation, OutOfRange,
                                            ExceedsRefundable, InactiveAccount, CurrencyMismatch}
    ensures Transition(db, req).1.error == NotFound <==> Find(db.txns, req.reference).None?
  {
    ReachableHolds(db);
    var found := Find(db.txns, req.reference);
    if found.Some? {
      var i := found.value;
      AnswerHolds(db, i, req);
      if db.txns[i].version == req.expected {
        RefusalsAreFew(db, i, req.target);
      }
    }
  }

  /** A rejected transition changes nothing. A late acknowledgment adds one exception and changes nothing else. */
  lemma RejectedChangesNothing(db: Db, req: Request)
    requires Reachable(db)
    ensures Transition(db, req).1.Rejected? ==> Transition(db, req).0 == db
    ensures Transition(db, req).1.LateRecorded? ==>
              var late := LateAck(Find(db.txns, req.reference).value, req.providerReference);
              Transition(db, req).0 == db.(exceptions := db.exceptions + [late])
  {
    ReachableHolds(db);
    var found := Find(db.txns, req.reference);
    if found.Some? {
      TransitionIsItsPlan(db, found.value, req);
    }
  }

  /** A transaction with a late acknowledgment stays EXPIRED and without journal entries in every later state. */
  lemma LateAcknowledgmentNeverBooks(db: Db, req: Request, events: seq<Event>)
    requires Reachable(db) && Transition(db, req).1.LateRecorded? && IsRun(Transition(db, req).0, events)
    ensures var i, later := Find(db.txns, req.reference).value, Run(Transition(db, req).0, events);
            i < |later.txns| && later.txns[i].status == Expired && EntriesOf(later.book.entries, i) == {}
  {
    ReachableHolds(db);
    var db1 := Transition(db, req).0;
    var i := Find(db.txns, req.reference).value;
    TransitionIsItsPlan(db, i, req);
    RunKeepsInv(db1, events);
    RunEvolves(db1, events);
    assert CountHolds(Run(db1, events), i);
  }

  // ---------------------------------------------------------------------------------------------
  // History
  // ---------------------------------------------------------------------------------------------

  /** History in append order is a path of the state machine that ends at the current status and is no longer than
      the version. */
  lemma HistoryIsAPath(db: Db, i: nat)
    requires Reachable(db) && i < |db.txns|
    ensures var trail := Trail(db.history, i);
            IsPath(trail) && trail[|trail| - 1].to == db.txns[i].status && |trail| <= db.txns[i].version
  {
    ReachableHolds(db);
    assert TrailHolds(db, i);
  }

  /** Along every run the refunded amount never decreases, and after the first confirmed refund a payment is never
      SUCCEEDED again. */
  lemma RefundedNeverDecreases(db: Db, events: seq<Event>, i: nat)
    requires Reachable(db) && IsRun(db, events) && i < |db.txns|
    ensures var later := Run(db, events);
            && i < |later.txns| && db.txns[i].refunded <= later.txns[i].refunded
            && (db.txns[i].refunded > 0 ==> later.txns[i].status != Succeeded)
  {
    ReachableHolds(db);
    RunKeepsInv(db, events);
    RunEvolves(db, events);
    assert RowHolds(Run(db, events), i);
  }
}
