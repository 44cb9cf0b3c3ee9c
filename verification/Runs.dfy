/** Whole runs: the invariant holds throughout, and committed rows only evolve. */
module Runs {
  import opened Prelude
  import opened Journal
  import opened Rows
  import opened Totals
  import opened Booking
  import opened Database
  import opened Invariant
  import opened Preservation

  // ---------------------------------------------------------------------------------------------
  // Transitions
  // ---------------------------------------------------------------------------------------------

  ghost predicate QuietTransition(db: Db, work: Work, i: nat, target: Status) {
    && i < |db.txns|
    && UpdateRow(db.txns[i], db.txns[i].(status := target)).Ok?
    && var w := Write(i, db.txns[i], UpdateRow(db.txns[i], db.txns[i].(status := target)).value);
       work.writes == [w] && work.entry.None? && work.late.None? && Legal(db, w) && Quiet(w) && work.returned == w.after
  }

  /** The five shapes of work a transition can commit. */
  ghost predicate Shaped(db: Db, i: nat, req: Request, work: Work)
    requires i < |db.txns|
  {
    var row := db.txns[i];
    if IsLateAck(row, req.target) then
      work.writes == [] && work.entry.None? && work.late == Some(LateAck(i, req.providerReference))
    else if ConfirmsRefund(row, req.target) then
      row.parent.Some? && exists updated, parent' ::
        RefundBooking(db, work, i, updated, row.parent.value, parent') && work.returned == updated
    else if req.target == Succeeded && row.status == Pending then
      exists updated :: PaymentBooking(db, work, i, updated) && work.returned == updated
    else if req.target == Status.Reversed && row.status == Disputed then
      exists updated, final :: Reversal(db, work, i, updated, final) && work.returned == final
    else
      QuietTransition(db, work, i, req.target)
  }

  lemma PlanIsShaped(db: Db, i: nat, req: Request)
    requires RowsHold(db) && i < |db.txns| && Plan(db, i, req).Ok?
    ensures Shaped(db, i, req, Plan(db, i, req).value)
  {
    var row := db.txns[i];
    var work := Plan(db, i, req).value;
    if !IsLateAck(row, req.target) {
      assert RowHolds(db, i);
      var updated := UpdateRow(row, row.(status := req.target)).value;
      if ConfirmsRefund(row, req.target) {
        var parent' := ParentAfterRefund(updated, db.txns[row.parent.value]).value;
        assert RefundBooking(db, work, i, updated, row.parent.value, parent');
      } else if req.target == Succeeded && row.status == Pending {
        assert PaymentBooking(db, work, i, updated);
      } else if req.target == Status.Reversed && row.status == Disputed {
        var final := RowAfterReversal(updated).value;
        assert Reversal(db, work, i, updated, final);
      } else {
        assert Booked(updated.status) ==> Booked(row.status);
        assert QuietTransition(db, work, i, req.target);
      }
    }
  }

  lemma ShapedKeepsInv(db: Db, i: nat, req: Request, work: Work)
    requires Inv(db) && i < |db.txns| && Shaped(db, i, req, work)
    ensures Inv(Apply(db, work))
  {
    var row := db.txns[i];
    if IsLateAck(row, req.target) {
      LateKeepsInv(db, work.late.value);
      assert Apply(db, work) == db.(exceptions := db.exceptions + [work.late.value]);
    } else if ConfirmsRefund(row, req.target) {
      var updated, parent' :| RefundBooking(db, work, i, updated, row.parent.value, parent') && work.returned == updated;
      RefundBookingKeepsInv(db, work, i, updated, row.parent.value, parent');
    } else if req.target == Succeeded && row.status == Pending {
      var updated :| PaymentBooking(db, work, i, updated) && work.returned == updated;
      PaymentBookingKeepsInv(db, work, i, updated);
    } else if req.target == Status.Reversed && row.status == Disputed {
      var updated, final :| Reversal(db, work, i, updated, final) && work.returned == final;
      ReversalKeepsInv(db, work, i, updated, final);
    } else {
      OneWrite(db, work.writes[0]);
      QuietWriteKeepsInv(db, work.writes[0]);
      assert Apply(db, work) == ApplyWrite(db, work.writes[0]);
    }
  }

  /** Facts about rows, trails and money survive when only accounts, merchants or exceptions grow. */
  lemma SameRows(db: Db, db': Db)
    requires RowsHold(db) && HistoryHolds(db) && Money(db)
    requires db'.txns == db.txns && db'.history == db.history && db'.book == db.book
    requires db.merchants <= db'.merchants
    requires forall a :: a in db.accounts ==> a in db'.accounts && db'.accounts[a].currency == db.accounts[a].currency
    ensures RowsHold(db') && HistoryHolds(db') && Money(db')
  {
    forall i | 0 <= i < |db'.txns|
      ensures RowHolds(db', i) && TrailHolds(db', i) && CountHolds(db', i) && RefundHolds(db', i)
    {
      assert RowHolds(db, i) && TrailHolds(db, i) && CountHolds(db, i) && RefundHolds(db, i);
    }
    forall e | 0 <= e < |db'.book.entries|
      ensures EntryHolds(db', e)
    {
      assert EntryHolds(db, e);
    }
    forall a
      ensures BalanceHolds(db', a)
    {
      assert BalanceHolds(db, a);
    }
  }

  lemma LateKeepsInv(db: Db, late: LateAck)
    requires Inv(db) && late.txn < |db.txns| && db.txns[late.txn].status == Expired
    ensures Inv(db.(exceptions := db.exceptions + [late]))
  {
    var db' := db.(exceptions := db.exceptions + [late]);
    SameRows(db, db');
    forall k | 0 <= k < |db'.exceptions|
      ensures ExceptionHolds(db', k)
    {
      assert k < |db.exceptions| ==> ExceptionHolds(db, k);
    }
  }

  /** The new entry of a shaped work is one the commit-time check accepts: bookings are never rolled back by LX002
      or LX003 at commit. */
  lemma ShapedEntryIsAccepted(db: Db, i: nat, req: Request, work: Work)
    requires Inv(db) && i < |db.txns| && Shaped(db, i, req, work) && work.entry.Some?
    ensures AssertEntryValid(AppendEntry(db.book, work.entry.value), |db.book.entries|).Pass?
  {
    var row := db.txns[i];
    if ConfirmsRefund(row, req.target) {
      var updated, parent' :| RefundBooking(db, work, i, updated, row.parent.value, parent') && work.returned == updated;
      DraftsAreAcceptable(updated, updated.amount);
    } else if req.target == Succeeded && row.status == Pending {
      var updated :| PaymentBooking(db, work, i, updated) && work.returned == updated;
      DraftsAreAcceptable(updated, updated.amount);
    } else {
      var updated, final :| Reversal(db, work, i, updated, final) && work.returned == final;
      DraftsAreAcceptable(updated, updated.amount - updated.refunded);
    }
    NewEntryIsValid(db.book, work.entry.value);
  }

  /** A planned transition always commits; so a transition is its plan, applied or not. */
  lemma TransitionIsItsPlan(db: Db, i: nat, req: Request)
    requires Inv(db) && i < |db.txns| && Find(db.txns, req.reference) == Some(i)
    ensures Plan(db, i, req).Err? ==> Transition(db, req) == (db, Rejected(Plan(db, i, req).error))
    ensures Plan(db, i, req).Ok? ==>
              var work := Plan(db, i, req).value;
              && Transition(db, req) == (Apply(db, work), if work.late.Some? then LateRecorded(|db.exceptions|) else Committed(work.returned))
              && Shaped(db, i, req, work) && Inv(Apply(db, work))
  {
    if Plan(db, i, req).Ok? {
      var work := Plan(db, i, req).value;
      PlanIsShaped(db, i, req);
      ShapedKeepsInv(db, i, req, work);
      if work.entry.Some? {
        ShapedEntryIsAccepted(db, i, req, work);
      }
    }
  }

  lemma TransitionKeepsInv(db: Db, req: Request)
    requires Inv(db)
    ensures Inv(Transition(db, req).0)
  {
    if Find(db.txns, req.reference).Some? {
      TransitionIsItsPlan(db, Find(db.txns, req.reference).value, req);
    }
  }

  // ---------------------------------------------------------------------------------------------
  // Sweeps, inserts, merchants
  // ---------------------------------------------------------------------------------------------

  lemma SweepIsQuiet(db: Db, batch: seq<nat>, now: int, writes: seq<Write>)
    requires RowsHold(db) && Sweepable(db, batch, now)
    requires PlanSweep(db.txns, batch) == Ok(writes)
    ensures QuietBatch(db, writes)
  {
    forall k | 0 <= k < |writes|
      ensures Legal(db, writes[k]) && Quiet(writes[k])
    {
      assert RowHolds(db, batch[k]) && Overdue(db.txns[batch[k]], now);
    }
  }

  lemma SweepKeepsInv(db: Db, batch: seq<nat>, now: int)
    requires Inv(db) && Sweepable(db, batch, now)
    ensures Inv(Sweep(db, batch).0)
  {
    var r := PlanSweep(db.txns, batch);
    if r.Ok? {
      SweepIsQuiet(db, batch, now, r.value);
      QuietBatchKeepsInv(db, r.value);
    }
  }

  lemma {:induction false} TotalOfNone(m: Measure, txns: seq<Txn>)
    requires forall k :: 0 <= k < |txns| ==> Weigh(m, txns[k]) == 0
    ensures Total(m, txns) == 0
  {
    if txns != [] {
      TotalOfNone(m, txns[..|txns| - 1]);
    }
  }

  /** A refund whose parent was checked against a row that may be out of date still fits its parent. */
  lemma NewRowFits(db: Db, proposed: Txn, seen: Option<Txn>, now: int)
    requires RowsHold(db) && ProperCreate(db, proposed, seen) && Insert(db, proposed, seen, now).Ok?
    ensures RowsHold(Insert(db, proposed, seen, now).value)
  {
    var db' := Insert(db, proposed, seen, now).value;
    var n := |db.txns|;
    forall i | 0 <= i <= n
      ensures RowHolds(db', i)
    {
      if i < n {
        assert db'.txns[i] == db.txns[i] && RowHolds(db, i);
      } else if proposed.kind == Refund {
        assert RefundAllowed(proposed, seen.value);
        assert RowEvolves(seen.value, db.txns[proposed.parent.value]);
      }
    }
  }

  lemma InsertKeepsStructure(db: Db, proposed: Txn, seen: Option<Txn>, now: int)
    requires Structure(db) && ProperCreate(db, proposed, seen) && Insert(db, proposed, seen, now).Ok?
    ensures Structure(Insert(db, proposed, seen, now).value)
  {
    var db' := Insert(db, proposed, seen, now).value;
    var n := |db.txns|;
    NewRowFits(db, proposed, seen, now);
    var c := Change(n, None, Initiated);
    forall i | 0 <= i <= n
      ensures TrailHolds(db', i)
    {
      TrailAppend(db.history, c, i);
      if i == n {
        TrailOfNone(db.history, n);
      } else {
        assert TrailHolds(db, i);
      }
    }
    forall k | 0 <= k < |db'.exceptions|
      ensures ExceptionHolds(db', k)
    {
      assert ExceptionHolds(db, k);
    }
  }

  lemma NewRowHasNoRefunds(db: Db)
    requires RowsHold(db) && EntriesHold(db)
    ensures EntriesOf(db.book.entries, |db.txns|) == {}
    ensures Total(RefundsOf(|db.txns|), db.txns) == 0
    ensures forall a :: CreditedBy(db.book, |db.txns|, a) == 0
  {
    var n := |db.txns|;
    assert EntriesOf(db.book.entries, n) == {} by {
      forall e | 0 <= e < |db.book.entries|
        ensures db.book.entries[e].transaction != Some(n)
      {
        assert EntryHolds(db, e);
      }
    }
    forall k | 0 <= k < n
      ensures Weigh(RefundsOf(n), db.txns[k]) == 0
    {
      assert RowHolds(db, k);
    }
    TotalOfNone(RefundsOf(n), db.txns);
    forall a
      ensures CreditedBy(db.book, n, a) == 0
    {
      SumOfNone(db.book.postings, OfEntries({}, a), Credit);
    }
  }

  ghost predicate NewRow(db: Db, db': Db, row: Txn) {
    db'.txns == db.txns + [row] && db'.book == db.book && row.status == Initiated && row.refunded == 0
  }

  lemma NewRowKeepsBalances(db: Db, db': Db, row: Txn)
    requires NewRow(db, db', row) && BalancesHold(db)
    ensures BalancesHold(db')
  {
    forall a
      ensures BalanceHolds(db', a)
    {
      assert BalanceHolds(db, a);
      TotalAppend(Share(a), db.txns, row);
    }
  }

  lemma NewRowKeepsEntries(db: Db, db': Db, row: Txn)
    requires NewRow(db, db', row) && EntriesHold(db) && EntriesOf(db.book.entries, |db.txns|) == {}
    ensures EntriesHold(db')
  {
    forall e | 0 <= e < |db'.book.entries|
      ensures EntryHolds(db', e)
    {
      assert EntryHolds(db, e);
    }
    forall i | 0 <= i < |db'.txns|
      ensures CountHolds(db', i)
    {
      assert i < |db.txns| ==> CountHolds(db, i);
    }
  }

  lemma NewRowKeepsDisputes(db: Db, db': Db, row: Txn)
    requires NewRow(db, db', row) && DisputesHold(db.txns)
    ensures DisputesHold(db'.txns)
  {
    forall i | 0 <= i < |db'.txns|
      ensures DisputeHolds(db'.txns, i)
    {
      assert i < |db.txns| ==> DisputeHolds(db.txns, i);
    }
  }

  lemma NewRowKeepsRefunds(db: Db, db': Db, row: Txn)
    requires NewRow(db, db', row) && RefundsHold(db)
    requires Total(RefundsOf(|db.txns|), db.txns) == 0 && forall a :: CreditedBy(db.book, |db.txns|, a) == 0
    ensures RefundsHold(db')
  {
    forall i | 0 <= i < |db'.txns|
      ensures RefundHolds(db', i)
    {
      assert i < |db.txns| ==> RefundHolds(db, i);
      TotalAppend(RefundsOf(i), db.txns, row);
    }
  }

  lemma InsertKeepsMoney(db: Db, proposed: Txn, seen: Option<Txn>, now: int)
    requires RowsHold(db) && Money(db) && Insert(db, proposed, seen, now).Ok?
    ensures Money(Insert(db, proposed, seen, now).value)
  {
    var db' := Insert(db, proposed, seen, now).value;
    var row := db'.txns[|db.txns|];
    NewRowHasNoRefunds(db);
    NewRowKeepsBalances(db, db', row);
    NewRowKeepsEntries(db, db', row);
    NewRowKeepsDisputes(db, db', row);
    NewRowKeepsRefunds(db, db', row);
  }

  lemma AccountsMayGrow(db: Db, db': Db)
    requires Inv(db)
    requires db'.txns == db.txns && db'.history == db.history && db'.book == db.book && db'.exceptions == db.exceptions
    requires db.merchants <= db'.merchants && ChartComplete(db')
    requires forall a :: a in db.accounts ==> a in db'.accounts && db'.accounts[a].currency == db.accounts[a].currency
    ensures Inv(db')
  {
    SameRows(db, db');
    forall k | 0 <= k < |db'.exceptions|
      ensures ExceptionHolds(db', k)
    {
      assert ExceptionHolds(db, k);
    }
  }

  // ---------------------------------------------------------------------------------------------
  // Every step, every run
  // ---------------------------------------------------------------------------------------------

  lemma StepKeepsInv(db: Db, event: Event)
    requires Inv(db) && MayHappen(db, event)
    ensures Inv(Step(db, event).0)
  {
    match event {
      case MerchantEvent(code) => AccountsMayGrow(db, Step(db, event).0);
      case SetActive(a, active) => AccountsMayGrow(db, Step(db, event).0);
      case CreateEvent(proposed, seen, now) =>
        if Insert(db, proposed, seen, now).Ok? {
          InsertKeepsStructure(db, proposed, seen, now);
          InsertKeepsMoney(db, proposed, seen, now);
        }
      case TransitionEvent(req) => TransitionKeepsInv(db, req);
      case SweepEvent(batch, now) => SweepKeepsInv(db, batch, now);
    }
  }

  lemma {:induction false} RunKeepsInv(db: Db, events: seq<Event>)
    requires Inv(db) && IsRun(db, events)
    ensures Inv(Run(db, events))
    decreases |events|
  {
    if events != [] {
      StepKeepsInv(db, events[0]);
      RunKeepsInv(Step(db, events[0]).0, events[1..]);
    }
  }

  ghost predicate Reachable(db: Db) {
    exists events :: IsRun(Initial(), events) && Run(Initial(), events) == db
  }

  lemma ReachableHolds(db: Db)
    requires Reachable(db)
    ensures Inv(db)
  {
    var events :| IsRun(Initial(), events) && Run(Initial(), events) == db;
    InitialHolds();
    RunKeepsInv(Initial(), events);
  }

  lemma ReachableRows(db: Db)
    requires Reachable(db)
    ensures RowsHold(db)
  {
    ReachableHolds(db);
  }

  lemma {:induction false} RunsConcatenate(db: Db, first: seq<Event>, second: seq<Event>)
    requires IsRun(db, first) && IsRun(Run(db, first), second)
    ensures IsRun(db, first + second) && Run(db, first + second) == Run(Run(db, first), second)
    decreases |first|
  {
    if first == [] {
      assert first + second == second;
    } else {
      assert (first + second)[1..] == first[1..] + second;
      RunsConcatenate(Step(db, first[0]).0, first[1..], second);
    }
  }

  lemma RunKeepsReachable(db: Db, events: seq<Event>)
    requires Reachable(db) && IsRun(db, events)
    ensures Reachable(Run(db, events))
  {
    var before :| IsRun(Initial(), before) && Run(Initial(), before) == db;
    RunsConcatenate(Initial(), before, events);
  }

  /** The service never leaves the reachable states. */
  lemma StepKeepsReachable(db: Db, event: Event)
    requires Reachable(db) && MayHappen(db, event)
    ensures Reachable(Step(db, event).0)
  {
    OneEvent(db, event);
    RunKeepsReachable(db, [event]);
  }

  // ---------------------------------------------------------------------------------------------
  // What may commit between two moments
  // ---------------------------------------------------------------------------------------------

  ghost predicate Later(db: Db, db': Db) {
    exists events :: IsRun(db, events) && Run(db, events) == db'
  }

  lemma LaterIsTransitive(a: Db, b: Db, c: Db)
    requires Later(a, b) && Later(b, c)
    ensures Later(a, c)
  {
    var first :| IsRun(a, first) && Run(a, first) == b;
    var second :| IsRun(b, second) && Run(b, second) == c;
    RunsConcatenate(a, first, second);
  }

  lemma LaterKeepsReachable(db: Db, db': Db)
    requires Reachable(db) && Later(db, db')
    ensures Reachable(db')
  {
    var events :| IsRun(db, events) && Run(db, events) == db';
    RunKeepsReachable(db, events);
  }

  lemma StepIsLater(db: Db, event: Event)
    requires MayHappen(db, event)
    ensures Later(db, Step(db, event).0)
  {
    OneEvent(db, event);
  }

  lemma NowIsLater(db: Db)
    ensures Later(db, db)
  {
    assert IsRun(db, []) && Run(db, []) == db;
  }

  lemma OneEvent(db: Db, event: Event)
    requires MayHappen(db, event)
    ensures IsRun(db, [event]) && Run(db, [event]) == Step(db, event).0
  {
    var next := Step(db, event).0;
    assert [event][1..] == [] && IsRun(next, []) && Run(next, []) == next;
    assert Run(db, [event]) == Run(next, [event][1..]);
  }
}
