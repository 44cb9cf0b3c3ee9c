/** The service as it runs: statements that change the tables one after the other, and a rollback when one fails. */
module Service {
  import opened Prelude
  import opened Chart
  import opened Journal
  import opened Rows
  import opened Commission
  import opened Booking
  import opened Database
  import opened Invariant
  import opened Preservation
  import opened Runs
  import opened Selection
  import opened Expiry

  class Ledger {
    var merchants: set<string>
    var accounts: Accounts
    var txns: seq<Txn>
    var history: seq<Change>
    var entries: seq<EntryRow>
    var postings: seq<PostingRow>
    var exceptions: seq<LateAck>

    function State(): Db
      reads this
    {
      Db(merchants, accounts, txns, history, Book(entries, postings), exceptions)
    }

    constructor ()
      ensures State() == Initial()
    {
      var db := Initial();
      merchants, accounts, txns, history := db.merchants, db.accounts, db.txns, db.history;
      entries, postings, exceptions := db.book.entries, db.book.postings, db.exceptions;
    }

    /** Puts the tables in a given state: ROLLBACK to what they were at BEGIN, or the commits of other clients. */
    method Restore(saved: Db)
      modifies this
      ensures State() == saved
    {
      merchants, accounts, txns, history := saved.merchants, saved.accounts, saved.txns, saved.history;
      entries, postings, exceptions := saved.book.entries, saved.book.postings, saved.exceptions;
    }

    /** UPDATE transactions SET ... WHERE id = i, with its triggers. */
    method UpdateTransaction(i: nat, proposed: Txn) returns (r: Result<Txn>)
      requires i < |txns|
      modifies this
      ensures r == UpdateRow(old(txns[i]), proposed)
      ensures State() == if r.Ok? then ApplyWrite(old(State()), Write(i, old(txns[i]), r.value)) else old(State())
    {
      var before := txns[i];
      var row := proposed;
      if !SameFrozenFields(before, row) {
        return Err(FrozenField);
      }
      if row.refunded < before.refunded {
        return Err(BusinessRule);
      }
      if row.status != before.status && !Edge(before.status, row.status) {
        return Err(ForbiddenTransition);
      }
      if before.version >= MAX_INTEGER {
        return Err(OutOfRange);
      }
      row := row.(version := before.version + 1);
      if !ChecksHold(row) {
        return Err(CheckViolation);
      }
      txns := txns[i := row];
      if row.status != before.status {
        history := history + [Change(i, Some(before.status), row.status)];
      }
      return Ok(row);
    }

    /** INSERT INTO transactions, with its trigger, CHECKs, unique indexes, foreign keys and history row. */
    method InsertTransaction(proposed: Txn, now: int) returns (r: Result<nat>)
      modifies this
      ensures var inserted := Insert(old(State()), proposed, CurrentParent(old(State()), proposed), now);
              if inserted.Ok? then r == Ok(|old(txns)|) && State() == inserted.value
              else r == Err(inserted.error) && State() == old(State())
    {
      if proposed.status != Initiated {
        return Err(ForbiddenTransition);
      }
      var row := proposed.(version := 1, refunded := 0, createdAt := now);
      if row.kind == Refund && row.parent.Some? && row.parent.value < |txns| {
        var parent := txns[row.parent.value];
        if parent.kind != Payment || parent.status !in {Succeeded, PartiallyRefunded} || parent.currency != row.currency
           || parent.provider != row.provider || row.amount > parent.amount - parent.refunded {
          return Err(BusinessRule);
        }
      }
      if !ChecksHold(row) {
        return Err(CheckViolation);
      }
      if exists k :: 0 <= k < |txns| && Clashes(txns[k], row) {
        return Err(Duplicate);
      }
      if row.merchant !in merchants || (row.parent.Some? && row.parent.value >= |txns|) {
        return Err(Error.ForeignKey);
      }
      txns := txns + [row];
      history := history + [Change(|txns| - 1, None, row.status)];
      return Ok(|txns| - 1);
    }

    /** INSERT the lines of an entry, each through its BEFORE trigger. */
    method InsertPostings(entry: nat, lines: seq<Line>) returns (o: Outcome)
      modifies this`postings
      ensures o == CheckLines(accounts, lines)
      ensures o.Pass? ==> postings == old(postings) + RowsFor(entry, lines)
    {
      CheckLinesPass(accounts, lines);
      for k := 0 to |lines|
        invariant postings == old(postings) + RowsFor(entry, lines[..k])
        invariant CheckLines(accounts, lines) == CheckLines(accounts, lines[k..])
      {
        var line := lines[k];
        assert lines[k..][0] == line && lines[k..][1..] == lines[k + 1..];
        if line.account !in accounts {
          return Fail(MissingAccount);
        }
        if !accounts[line.account].active {
          return Fail(InactiveAccount);
        }
        if accounts[line.account].currency != line.currency {
          return Fail(CurrencyMismatch);
        }
        if line.amount <= 0 {
          return Fail(CheckViolation);
        }
        postings := postings + [PostingRow(entry, line)];
        assert RowsFor(entry, lines[..k + 1]) == RowsFor(entry, lines[..k]) + [PostingRow(entry, line)];
      }
      assert lines[..|lines|] == lines && lines[|lines|..] == [];
      return Pass;
    }

    /** Inserts the journal entry of a transaction and its lines. */
    method Post(i: nat, t: Txn, lines: seq<Line>) returns (o: Outcome)
      modifies this
      ensures o.Pass? <==> Accept(merchants, accounts, t, lines).Ok?
      ensures o.Fail? ==> Accept(merchants, accounts, t, lines) == Err(o.error)
      ensures State() == old(State()).(book := State().book)
      ensures o.Pass? ==> State().book == AppendEntry(old(State().book), EntryDraft(i, lines))
    {
      if t.merchant !in merchants {
        return Fail(NotFound);
      }
      if exists k :: 0 <= k < |lines| && lines[k].account !in accounts {
        return Fail(MissingAccount);
      }
      var entry := |entries|;
      entries := entries + [EntryRow(Some(i), None)];
      o := InsertPostings(entry, lines);
    }

    method BookPaymentSuccess(i: nat, t: Txn) returns (o: Outcome)
      modifies this
      ensures o.Pass? <==> Accept(merchants, accounts, t, PaymentLines(t)).Ok?
      ensures o.Fail? ==> Accept(merchants, accounts, t, PaymentLines(t)) == Err(o.error)
      ensures State() == old(State()).(book := State().book)
      ensures o.Pass? ==> State().book == AppendEntry(old(State().book), EntryDraft(i, PaymentLines(t)))
    {
      var commission := ComputeCommission(t.amount);
      var merchantAmount := t.amount - commission;
      var lines := [Line(Clearing(t.provider), Debit, t.amount, t.currency),
                    Line(Payable(t.merchant), Credit, merchantAmount, t.currency)];
      if commission > 0 {
        lines := lines + [Line(Fees, Credit, commission, t.currency)];
      }
      assert lines == PaymentLines(t);
      o := Post(i, t, lines);
    }

    method BookRefundSuccess(i: nat, refund: Txn) returns (o: Outcome)
      modifies this
      ensures RefundBooked(old(State()), i, refund, o, State())
    {
      if refund.parent.None? || refund.parent.value >= |txns| {
        return Fail(NotFound);
      }
      var p := refund.parent.value;
      var parent := txns[p];
      var newRefundedAmount := parent.refunded + refund.amount;
      if newRefundedAmount > parent.amount {
        return Fail(ExceedsRefundable);
      }
      var newParentStatus := if newRefundedAmount == parent.amount then Refunded else PartiallyRefunded;
      var r := UpdateTransaction(p, parent.(refunded := newRefundedAmount, status := newParentStatus));
      if r.Err? {
        return Fail(r.error);
      }
      o := Post(i, refund, TakeBackLines(refund, refund.amount));
    }

    method BookDisputeReversal(i: nat) returns (r: Result<Txn>)
      requires i < |txns|
      modifies this
      ensures ReversalBooked(old(State()), i, r, State())
    {
      var t := txns[i];
      var remaining := t.amount - t.refunded;
      if remaining <= 0 {
        return Err(NothingToTakeBack);
      }
      r := UpdateTransaction(i, t.(refunded := t.amount));
      if r.Ok? {
        var o := Post(i, t, TakeBackLines(t, remaining));
        if o.Fail? {
          r := Err(o.error);
        }
      }
    }

    /** The bookings that follow a status update, if any; returns the row as it then stands. */
    method BookMoney(ghost db: Db, i: nat, req: Request, row: Txn, updated: Txn) returns (r: Result<Txn>)
      requires OnTrack(db, i, req, updated) && row == db.txns[i] && row.parent != Some(i)
      requires State() == ApplyWrite(db, Write(i, row, updated))
      modifies this
      ensures r.Err? ==> Plan(db, i, req) == Err(r.error)
      ensures r.Ok? ==> Planned(db, i, req, State(), Committed(r.value))
    {
      if req.target == Succeeded && row.status == Pending {
        var o;
        if row.kind == Payment {
          o := BookPaymentSuccess(i, updated);
          PaymentPath(db, i, req, updated);
        } else {
          o := BookRefundSuccess(i, updated);
          RefundPath(db, i, req, updated, o, State());
        }
        r := if o.Fail? then Err(o.error) else Ok(updated);
      } else if req.target == Status.Reversed && row.status == Disputed {
        r := BookDisputeReversal(i);
        ReversalPath(db, i, req, updated, r, State());
      } else {
        PlainPath(db, i, req, updated);
        r := Ok(updated);
      }
    }

    /** The statements of `transition` after the row is locked: everything up to COMMIT or to the first exception. */
    method AttemptTransition(i: nat, req: Request) returns (r: Result<Reply>)
      requires i < |txns| && txns[i].parent != Some(i)
      modifies this
      ensures r.Err? ==> Plan(old(State()), i, req) == Err(r.error)
      ensures r.Ok? ==> Planned(old(State()), i, req, State(), r.value)
    {
      ghost var db := State();
      var row := txns[i];
      if row.version != req.expected {
        return Err(PreconditionFailed);
      }
      if row.status == Expired && req.target == Succeeded {
        exceptions := exceptions + [LateAck(i, req.providerReference)];
        return Ok(LateRecorded(|exceptions| - 1));
      }
      var u := UpdateTransaction(i, row.(status := req.target));
      if u.Err? {
        return Err(u.error);
      }
      u := BookMoney(db, i, req, row, u.value);
      if u.Err? {
        return Err(u.error);
      }
      return Ok(Committed(u.value));
    }

    /** TransactionsService.transition: lock, attempt, then COMMIT with its deferred check, or ROLLBACK. */
    method Transition(req: Request) returns (reply: Reply)
      requires Reachable(State())
      modifies this
      ensures (State(), reply) == Database.Transition(old(State()), req)
      ensures Reachable(State())
    {
      StepKeepsReachable(State(), TransitionEvent(req));
      var saved := State();
      var found := Find(txns, req.reference);
      if found.None? {
        return Rejected(NotFound);
      }
      var i := found.value;
      ParentIsAnotherRow(State(), i);
      var r := AttemptTransition(i, req);
      if r.Err? {
        Restore(saved);
        return Rejected(r.error);
      }
      if |entries| > |saved.book.entries| {
        var check := AssertEntryValid(Book(entries, postings), |saved.book.entries|);
        if check.Fail? {
          Restore(saved);
          return Rejected(check.error);
        }
      }
      return r.value;
    }

    /** UPDATE transactions SET status = 'EXPIRED' WHERE id IN (...). */
    method ExpireRows(batch: seq<nat>) returns (o: Outcome)
      requires Distinct(batch) && forall k :: 0 <= k < |batch| ==> batch[k] < |txns|
      modifies this
      ensures o.Fail? ==> PlanSweep(old(txns), batch) == Err(o.error)
      ensures o.Pass? ==> PlanSweep(old(txns), batch).Ok?
                          && State() == ApplyWrites(old(State()), PlanSweep(old(txns), batch).value)
    {
      ghost var db := State();
      for k := 0 to |batch|
        invariant |txns| == |db.txns|
        invariant forall j :: k <= j < |batch| ==> txns[batch[j]] == db.txns[batch[j]]
        invariant PlanSweep(db.txns, batch[..k]).Ok? && State() == ApplyWrites(db, PlanSweep(db.txns, batch[..k]).value)
      {
        var i := batch[k];
        var r := UpdateTransaction(i, txns[i].(status := Expired));
        PlanSweepPush(db, batch, k);
        if r.Err? {
          return Fail(r.error);
        }
      }
      assert batch[..|batch|] == batch;
      return Pass;
    }

    /** TransactionsService.expireOneBatch: select, lock, expire, commit; 0 when nothing is overdue. */
    method ExpireOneBatch(now: int, locked: set<nat>) returns (r: Result<nat>, ghost batch: seq<nat>)
      modifies this
      ensures IsBatch(old(txns), now, locked, batch)
      ensures (State(), if r.Ok? then Swept(r.value) else Rejected(r.error)) == Sweep(old(State()), batch)
      ensures r.Ok? ==> r.value == |batch| && ExpiredTheEarliest(old(txns), txns, now, locked, r.value)
      ensures r.Err? ==> State() == old(State())
    {
      ghost var db := State();
      var saved := State();
      var rows := Select(txns, now, locked);
      batch := rows;
      SelectIsABatch(txns, now, locked);
      assert forall k :: 0 <= k < |rows| ==> Eligible(txns, now, locked, rows[k]);
      if PlanSweep(txns, rows).Ok? {
        PlannedSweepExpires(db, rows, now);
        BatchIsExact(db, rows, now, locked, Sweep(db, rows).0);
      }
      if rows == [] {
        return Ok(0), batch;
      }
      var o := ExpireRows(rows);
      if o.Fail? {
        Restore(saved);
        return Err(o.error), batch;
      }
      return Ok(|rows|), batch;
    }

    /** The other clients commit what they will, then one batch runs. */
    method OneRound(clock: nat -> int, locked: nat -> set<nat>, others: Others, b: nat, ghost alone: bool, ghost start: Db, ghost taken: seq<nat>)
      returns (expired: Result<nat>, ghost batch: seq<nat>)
      requires Going(alone, start, State(), clock, locked, taken, b)
      requires Later(State(), others(b, State())) && (alone ==> Advances(clock) && others(b, State()) == State())
      modifies this
      ensures Round(alone, start, others(b, old(State())), clock, locked, taken, b, batch, State(), expired)
    {
      OthersKeepProgress(start, State(), taken, others(b, State()));
      OthersKeepDue(State(), clock, taken, b, others(b, State()));
      Restore(others(b, State()));
      ghost var mid := State();
      expired, batch := ExpireOneBatch(clock(b), locked(b));
      OneMoreBatch(alone, start, mid, clock, locked, taken, b, batch, State(), expired);
    }

    /** The loop of expireOverduePending: batches until an empty one. Each has its own clock reading, its own rows locked by
        others, and before it the other clients may have committed anything; they are silent from some batch on, without
        which the loop need not end. */
    method ExpireUntilEmpty(clock: nat -> int, locked: nat -> set<nat>, others: Others, ghost silent: nat)
      returns (r: Result<nat>, ghost taken: seq<nat>, ghost batches: nat)
      requires Reachable(State()) && Proper(others) && SilentFrom(others, silent)
      modifies this
      ensures batches > 0
      ensures Ended(Alone(clock, others), old(State()), State(), clock, locked, taken, batches - 1, r)
    {
      ghost var start, alone := State(), Alone(clock, others);
      var total, b := 0, 0;
      taken := [];
      NothingTakenYet(start);
      while true
        invariant Going(alone, start, State(), clock, locked, taken, b) && total == |taken|
        decreases if b < silent then silent - b else 0, PendingRows(txns)
      {
        ghost var batch;
        var expired;
        expired, batch := OneRound(clock, locked, others, b, alone, start, taken);
        batches := b + 1;
        if expired.Err? {
          return expired, taken, batches;
        }
        total := total + expired.value;
        if expired.value == 0 {
          return Ok(total), taken, batches;
        }
        taken := taken + batch;
        b := b + 1;
      }
    }

    /** TransactionsService.expireOverduePending. When nobody else commits and the clock advances, all the batches amount to
        one update. */
    method ExpireOverduePending(clock: nat -> int, locked: nat -> set<nat>, others: Others, ghost silent: nat)
      returns (r: Result<nat>, ghost taken: seq<nat>, ghost batches: nat)
      requires Reachable(State()) && Proper(others) && SilentFrom(others, silent)
      modifies this
      ensures batches > 0
      ensures Ended(Alone(clock, others), old(State()), State(), clock, locked, taken, batches - 1, r)
      ensures LeavesNothingDue(txns, clock, locked(batches - 1), taken, batches - 1, r)
      ensures Alone(clock, others) ==> ExpiresExactly(old(State()), State(), clock(batches - 1), taken)
    {
      ghost var start, alone := State(), Alone(clock, others);
      r, taken, batches := ExpireUntilEmpty(clock, locked, others, silent);
      LoopLeavesNothingDue(alone, start, State(), clock, locked, taken, batches - 1, r);
      if alone {
        LoopExpiresExactly(start, State(), clock, locked, taken, batches - 1, r.Ok?);
      }
    }
  }

  lemma {:induction false} WritesPush(db: Db, writes: seq<Write>, w: Write)
    ensures ApplyWrites(db, writes + [w]) == ApplyWrite(ApplyWrites(db, writes), w)
    decreases |writes|
  {
    if writes == [] {
      assert [] + [w] == [w] && [w][1..] == [];
    } else {
      assert (writes + [w])[1..] == writes[1..] + [w];
      WritesPush(ApplyWrite(db, writes[0]), writes[1..], w);
    }
  }

  lemma {:induction false} PlanSweepAppend(txns: seq<Txn>, first: seq<nat>, second: seq<nat>)
    requires forall k :: 0 <= k < |first| ==> first[k] < |txns|
    requires forall k :: 0 <= k < |second| ==> second[k] < |txns|
    ensures var a, b := PlanSweep(txns, first), PlanSweep(txns, second);
            PlanSweep(txns, first + second) == if a.Err? then a else if b.Err? then b else Ok(a.value + b.value)
  {
    if first == [] {
      assert first + second == second;
      var b := PlanSweep(txns, second);
      assert b.Ok? ==> [] + b.value == b.value;
    } else {
      assert (first + second)[0] == first[0] && (first + second)[1..] == first[1..] + second;
      PlanSweepAppend(txns, first[1..], second);
      var r := UpdateRow(txns[first[0]], txns[first[0]].(status := Expired));
      var rest, b := PlanSweep(txns, first[1..]), PlanSweep(txns, second);
      if r.Ok? && rest.Ok? && b.Ok? {
        var w := Write(first[0], txns[first[0]], r.value);
        assert [w] + (rest.value + b.value) == ([w] + rest.value) + b.value;
      }
    }
  }

  lemma PlanOfOne(txns: seq<Txn>, i: nat)
    requires i < |txns|
    ensures var r := UpdateRow(txns[i], txns[i].(status := Expired));
            PlanSweep(txns, [i]) == if r.Err? then Err(r.error) else Ok([Write(i, txns[i], r.value)])
  {
    var r := UpdateRow(txns[i], txns[i].(status := Expired));
    assert [i][0] == i && [i][1..] == [];
    if r.Ok? {
      var w := Write(i, txns[i], r.value);
      assert PlanSweep(txns, [i]) == Ok([w] + []) && [w] + [] == [w];
    }
  }

  lemma PlanOfParts(txns: seq<Txn>, first: seq<nat>, i: nat, rest: seq<nat>)
    requires i < |txns| && (forall k :: 0 <= k < |first| ==> first[k] < |txns|) && forall k :: 0 <= k < |rest| ==> rest[k] < |txns|
    requires PlanSweep(txns, first).Ok?
    ensures var r := UpdateRow(txns[i], txns[i].(status := Expired));
            if r.Err? then PlanSweep(txns, first + [i] + rest) == Err(r.error)
            else PlanSweep(txns, first + [i]) == Ok(PlanSweep(txns, first).value + [Write(i, txns[i], r.value)])
  {
    PlanOfOne(txns, i);
    PlanSweepAppend(txns, first, [i]);
    PlanSweepAppend(txns, first + [i], rest);
  }

  lemma SplitAt(batch: seq<nat>, k: nat)
    requires k < |batch|
    ensures batch[..k] + [batch[k]] == batch[..k + 1] && batch[..k] + [batch[k]] + batch[k + 1..] == batch
  {
  }

  /** What updating one more row of a batch adds to the plan. */
  lemma PlanSweepPush(db: Db, batch: seq<nat>, k: nat)
    requires k < |batch| && forall j :: 0 <= j < |batch| ==> batch[j] < |db.txns|
    requires PlanSweep(db.txns, batch[..k]).Ok?
    ensures var r, done := UpdateRow(db.txns[batch[k]], db.txns[batch[k]].(status := Expired)), PlanSweep(db.txns, batch[..k]).value;
            if r.Err? then PlanSweep(db.txns, batch) == Err(r.error)
            else
              var w := Write(batch[k], db.txns[batch[k]], r.value);
              && PlanSweep(db.txns, batch[..k + 1]) == Ok(done + [w])
              && ApplyWrites(db, done + [w]) == ApplyWrite(ApplyWrites(db, done), w)
  {
    var r, done := UpdateRow(db.txns[batch[k]], db.txns[batch[k]].(status := Expired)), PlanSweep(db.txns, batch[..k]).value;
    SplitAt(batch, k);
    PlanOfParts(db.txns, batch[..k], batch[k], batch[k + 1..]);
    if r.Ok? {
      WritesPush(db, done, Write(batch[k], db.txns[batch[k]], r.value));
    }
  }

  /** A planned work, committed, with the reply that goes with it. */
  ghost predicate Planned(db: Db, i: nat, req: Request, db': Db, reply: Reply)
    requires i < |db.txns|
  {
    var plan := Plan(db, i, req);
    && plan.Ok? && db' == Apply(db, plan.value)
    && reply == if plan.value.late.Some? then LateRecorded(|db.exceptions|) else Committed(plan.value.returned)
  }

  lemma ParentIsAnotherRow(db: Db, i: nat)
    requires Reachable(db) && i < |db.txns|
    ensures db.txns[i].parent != Some(i)
  {
    ReachableHolds(db);
    assert RowHolds(db, i);
  }

  /** What bookRefundSuccess does: the parent updated and the entry appended, or the first error. */
  ghost predicate RefundBooked(db: Db, i: nat, refund: Txn, o: Outcome, db': Db) {
    if refund.parent.None? || refund.parent.value >= |db.txns| then o == Fail(NotFound)
    else
      var p := refund.parent.value;
      var parent := ParentAfterRefund(refund, db.txns[p]);
      var lines := Accept(db.merchants, db.accounts, refund, TakeBackLines(refund, refund.amount));
      if parent.Err? then o == Fail(parent.error)
      else if lines.Err? then o == Fail(lines.error)
      else
        && o.Pass?
        && db' == ApplyWrite(db, Write(p, db.txns[p], parent.value)).(book := AppendEntry(db.book, EntryDraft(i, lines.value)))
  }

  /** What bookDisputeReversal does: the same row updated again and the entry appended, or the first error. */
  ghost predicate ReversalBooked(db: Db, i: nat, r: Result<Txn>, db': Db)
    requires i < |db.txns|
  {
    var t := db.txns[i];
    var final := RowAfterReversal(t);
    var lines := Accept(db.merchants, db.accounts, t, TakeBackLines(t, t.amount - t.refunded));
    if final.Err? then r == final
    else if lines.Err? then r == Err(lines.error)
    else
      && r == final
      && db' == ApplyWrite(db, Write(i, t, final.value)).(book := AppendEntry(db.book, EntryDraft(i, lines.value)))
  }

  ghost predicate OnTrack(db: Db, i: nat, req: Request, updated: Txn) {
    && i < |db.txns| && db.txns[i].version == req.expected && !IsLateAck(db.txns[i], req.target)
    && UpdateRow(db.txns[i], db.txns[i].(status := req.target)) == Ok(updated)
  }

  lemma PlainPath(db: Db, i: nat, req: Request, updated: Txn)
    requires OnTrack(db, i, req, updated)
    requires !(req.target == Succeeded && db.txns[i].status == Pending)
    requires !(req.target == Status.Reversed && db.txns[i].status == Disputed)
    ensures Planned(db, i, req, ApplyWrite(db, Write(i, db.txns[i], updated)), Committed(updated))
  {
    OneWrite(db, Write(i, db.txns[i], updated));
  }

  lemma PaymentPath(db: Db, i: nat, req: Request, updated: Txn)
    requires OnTrack(db, i, req, updated)
    requires req.target == Succeeded && db.txns[i].status == Pending && db.txns[i].kind == Payment
    ensures var lines := Accept(db.merchants, db.accounts, updated, PaymentLines(updated));
            if lines.Err? then Plan(db, i, req) == Err(lines.error)
            else Planned(db, i, req, ApplyWrite(db, Write(i, db.txns[i], updated))
                                     .(book := AppendEntry(db.book, EntryDraft(i, lines.value))), Committed(updated))
  {
    OneWrite(db, Write(i, db.txns[i], updated));
  }

  lemma RefundPath(db: Db, i: nat, req: Request, updated: Txn, o: Outcome, db': Db)
    requires OnTrack(db, i, req, updated)
    requires ConfirmsRefund(db.txns[i], req.target) && updated.parent != Some(i)
    requires RefundBooked(ApplyWrite(db, Write(i, db.txns[i], updated)), i, updated, o, db')
    ensures if o.Fail? then Plan(db, i, req) == Err(o.error) else Planned(db, i, req, db', Committed(updated))
  {
    if updated.parent.Some? && updated.parent.value < |db.txns| {
      var p := updated.parent.value;
      var parent := ParentAfterRefund(updated, db.txns[p]);
      if parent.Ok? {
        TwoWrites(db, Write(i, db.txns[i], updated), Write(p, db.txns[p], parent.value));
      }
    }
  }

  lemma ReversalPath(db: Db, i: nat, req: Request, updated: Txn, r: Result<Txn>, db': Db)
    requires OnTrack(db, i, req, updated)
    requires req.target == Status.Reversed && db.txns[i].status == Disputed
    requires ReversalBooked(ApplyWrite(db, Write(i, db.txns[i], updated)), i, r, db')
    ensures if r.Err? then Plan(db, i, req) == Err(r.error) else Planned(db, i, req, db', Committed(r.value))
  {
    var final := RowAfterReversal(updated);
    if final.Ok? {
      TwoWrites(db, Write(i, db.txns[i], updated), Write(i, updated, final.value));
    }
  }
}
