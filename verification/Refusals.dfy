/** The answer to every transition request, read off the rows and accounts before it. */
module Refusals {
  import opened Prelude
  import opened Chart
  import opened Journal
  import opened Rows
  import opened Commission
  import opened Booking
  import opened Database
  import opened Invariant
  import opened Runs

  // The functions up to Refusal say what the answer is; the code they describe does not use them.

  ghost function First(a: Option<Error>, b: Option<Error>): Option<Error> {
    if a.Some? then a else b
  }

  ghost function AccountRefusal(db: Db, a: AccountName, currency: string): Option<Error> {
    if a !in db.accounts then Some(MissingAccount)
    else if !db.accounts[a].active then Some(InactiveAccount)
    else if db.accounts[a].currency != currency then Some(CurrencyMismatch)
    else None
  }

  /** The status alone: an unknown edge is LX005; then an exhausted version; then a status that the CHECKs do not allow with
      the row's type and refunded amount. REFUNDED and PARTIALLY_REFUNDED cannot be asked for outside a dispute. */
  ghost function StatusRefusal(t: Txn, target: Status): Option<Error> {
    if target == t.status then
      if t.version >= 2147483647 then Some(OutOfRange) else None
    else if (t.status, target) !in {(Initiated, Pending), (Initiated, Failed), (Pending, Succeeded), (Pending, Failed),
                                    (Pending, Expired), (Succeeded, PartiallyRefunded), (Succeeded, Refunded),
                                    (Succeeded, Disputed), (PartiallyRefunded, Refunded), (PartiallyRefunded, Disputed),
                                    (Disputed, Succeeded), (Disputed, PartiallyRefunded), (Disputed, Reversed)}
    then Some(ForbiddenTransition)
    else if t.version >= 2147483647 then Some(OutOfRange)
    else if || (t.kind == Refund && target == Disputed)
            || (t.status != Disputed && (target == PartiallyRefunded || target == Refunded))
            || (t.status == Disputed && target == Succeeded && t.refunded > 0)
            || (t.status == Disputed && target == PartiallyRefunded && t.refunded == 0)
    then Some(CheckViolation)
    else None
  }

  /** Confirming a refund on its parent: 422 when too little is left, LX005 when all that is left of a disputed payment
      would be refunded. */
  ghost function ParentRefusal(refund: Txn, parent: Txn): Option<Error> {
    if parent.refunded + refund.amount > parent.amount then Some(ExceedsRefundable)
    else if parent.status == Disputed && parent.refunded + refund.amount == parent.amount then Some(ForbiddenTransition)
    else if parent.version >= 2147483647 then Some(OutOfRange)
    else None
  }

  ghost function Refusal(db: Db, i: nat, target: Status): Option<Error>
    requires i < |db.txns|
  {
    var t := db.txns[i];
    var clearing, payable := AccountRefusal(db, Clearing(t.provider), t.currency), AccountRefusal(db, Payable(t.merchant), t.currency);
    First(StatusRefusal(t, target),
          if t.status == Pending && target == Succeeded then
            if t.kind == Payment then
              First(clearing, First(payable, if t.amount >= 67 then AccountRefusal(db, Fees, t.currency) else None))
            else if t.parent.Some? && t.parent.value < |db.txns| then
              First(ParentRefusal(t, db.txns[t.parent.value]), First(payable, clearing))
            else Some(NotFound)
          else if t.status == Disputed && target == Status.Reversed then
            if t.version >= 2147483646 then Some(OutOfRange) else First(payable, clearing)
          else None)
  }

  ghost predicate Answers<T>(r: Result<T>, refusal: Option<Error>) {
    match refusal
    case None => r.Ok?
    case Some(e) => r == Err(e)
  }

  lemma StatusAnswer(db: Db, i: nat, target: Status)
    requires i < |db.txns| && RowHolds(db, i) && DisputeHolds(db.txns, i)
    ensures Answers(UpdateRow(db.txns[i], db.txns[i].(status := target)), StatusRefusal(db.txns[i], target))
  {
  }

  lemma ParentAnswer(db: Db, p: nat, refund: Txn)
    requires p < |db.txns| && RowHolds(db, p) && DisputeHolds(db.txns, p)
    requires db.txns[p].kind == Payment && Booked(db.txns[p].status) && refund.amount > 0
    ensures Answers(ParentAfterRefund(refund, db.txns[p]), ParentRefusal(refund, db.txns[p]))
  {
  }

  lemma LineAnswer(accounts: Accounts, lines: seq<Line>)
    requires lines != [] && lines[0].amount > 0
    ensures lines[0].account in accounts ==>
              CheckLines(accounts, lines) ==
                if !accounts[lines[0].account].active then Fail(InactiveAccount)
                else if accounts[lines[0].account].currency != lines[0].currency then Fail(CurrencyMismatch)
                else CheckLines(accounts, lines[1..])
  {
  }

  lemma TakeBackAnswer(db: Db, t: Txn, amount: int)
    requires ChartComplete(db) && t.merchant in db.merchants && amount > 0
    ensures Answers(Accept(db.merchants, db.accounts, t, TakeBackLines(t, amount)),
                    First(AccountRefusal(db, Payable(t.merchant), t.currency), AccountRefusal(db, Clearing(t.provider), t.currency)))
  {
    var lines := TakeBackLines(t, amount);
    LineAnswer(db.accounts, lines);
    LineAnswer(db.accounts, lines[1..]);
    assert lines[1..][0] == lines[1] && lines[1..][1..] == [];
  }

  lemma PaymentAnswer(db: Db, t: Txn)
    requires ChartComplete(db) && t.merchant in db.merchants && t.amount > 0
    ensures Answers(Accept(db.merchants, db.accounts, t, PaymentLines(t)),
                    First(AccountRefusal(db, Clearing(t.provider), t.currency),
                          First(AccountRefusal(db, Payable(t.merchant), t.currency),
                                if t.amount >= 67 then AccountRefusal(db, Fees, t.currency) else None)))
  {
    CommissionBounds(t.amount);
    var lines := PaymentLines(t);
    LineAnswer(db.accounts, lines);
    LineAnswer(db.accounts, lines[1..]);
    assert lines[1..][0] == lines[1] && lines[1..][1..] == lines[2..];
    if t.amount >= 67 {
      LineAnswer(db.accounts, lines[2..]);
      assert lines[2..][0] == lines[2] && lines[2..][1..] == [];
    }
  }

  lemma PlanAnswer(db: Db, i: nat, req: Request)
    requires Inv(db) && i < |db.txns| && db.txns[i].version == req.expected
    requires !(db.txns[i].status == Expired && req.target == Succeeded)
    ensures Answers(Plan(db, i, req), Refusal(db, i, req.target))
  {
    var t := db.txns[i];
    assert RowHolds(db, i) && DisputeHolds(db.txns, i);
    StatusAnswer(db, i, req.target);
    var r := UpdateRow(t, t.(status := req.target));
    if r.Ok? {
      if ConfirmsRefund(t, req.target) {
        assert RowHolds(db, t.parent.value) && DisputeHolds(db.txns, t.parent.value);
        ParentAnswer(db, t.parent.value, r.value);
        TakeBackAnswer(db, r.value, r.value.amount);
      } else if req.target == Succeeded && t.status == Pending {
        PaymentAnswer(db, r.value);
      } else if req.target == Status.Reversed && t.status == Disputed {
        TakeBackAnswer(db, r.value, r.value.amount - r.value.refunded);
      }
    }
  }

  /** The answer to a transition: 404 if and only if the reference is unknown, 412 if and only if the version is not the
      current one, a late acknowledgment if and only if SUCCEEDED is asked of an EXPIRED transaction, and otherwise exactly
      what Refusal says, or success. */
  lemma TransitionAnswers(db: Db, req: Request)
    requires Reachable(db)
    ensures var reply := Transition(db, req).1;
            if forall k :: 0 <= k < |db.txns| ==> db.txns[k].reference != req.reference then reply == Rejected(NotFound)
            else exists i: nat :: i < |db.txns| && db.txns[i].reference == req.reference && AnswerFor(db, i, req, reply)
  {
    ReachableHolds(db);
    var found := Find(db.txns, req.reference);
    if found.Some? {
      AnswerHolds(db, found.value, req);
    }
  }

  ghost predicate AnswerFor(db: Db, i: nat, req: Request, reply: Reply)
    requires i < |db.txns|
  {
    var t := db.txns[i];
    if t.version != req.expected then reply == Rejected(PreconditionFailed)
    else if t.status == Expired && req.target == Succeeded then reply == LateRecorded(|db.exceptions|)
    else match Refusal(db, i, req.target)
      case Some(e) => reply == Rejected(e)
      case None => reply.Committed?
  }

  lemma AnswerHolds(db: Db, i: nat, req: Request)
    requires Inv(db) && Find(db.txns, req.reference) == Some(i)
    ensures AnswerFor(db, i, req, Transition(db, req).1)
  {
    TransitionIsItsPlan(db, i, req);
    if db.txns[i].version == req.expected && !(db.txns[i].status == Expired && req.target == Succeeded) {
      PlanAnswer(db, i, req);
    }
  }
}
