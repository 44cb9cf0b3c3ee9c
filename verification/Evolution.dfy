/** What one committed state says about every later one. */
module Evolution {
  import opened Prelude
  import opened Chart
  import opened Rows
  import opened Booking
  import opened Database
  import opened Invariant
  import opened Preservation
  import opened Runs

  ghost predicate AccountsEvolve(a: Accounts, b: Accounts) {
    forall n :: n in a ==> n in b && b[n].kind == a[n].kind && b[n].currency == a[n].currency
  }

  /** `later` extends `earlier`: rows evolve, every other table is append-only. */
  ghost predicate Evolves(earlier: Db, later: Db) {
    && |earlier.txns| <= |later.txns|
    && (forall i :: 0 <= i < |earlier.txns| ==> RowEvolves(earlier.txns[i], later.txns[i]))
    && earlier.history <= later.history
    && earlier.book.entries <= later.book.entries
    && earlier.book.postings <= later.book.postings
    && earlier.exceptions <= later.exceptions
    && earlier.merchants <= later.merchants
    && AccountsEvolve(earlier.accounts, later.accounts)
  }

  lemma EvolvesIsTransitive(a: Db, b: Db, c: Db)
    requires Evolves(a, b) && Evolves(b, c)
    ensures Evolves(a, c)
  {
  }

  lemma LegalWriteEvolves(db: Db, w: Write)
    requires Legal(db, w)
    ensures Evolves(db, ApplyWrite(db, w))
  {
  }

  lemma {:induction false} QuietBatchEvolves(db: Db, writes: seq<Write>)
    requires QuietBatch(db, writes)
    ensures Evolves(db, ApplyWrites(db, writes))
    decreases |writes|
  {
    if writes != [] {
      var db1 := ApplyWrite(db, writes[0]);
      LegalWriteEvolves(db, writes[0]);
      RestOfBatch(db, writes);
      QuietBatchEvolves(db1, writes[1..]);
      EvolvesIsTransitive(db, db1, ApplyWrites(db, writes));
    }
  }

  /** What a booking does to its own row: evolves it and leaves the row it returns, at the expected distance. */
  ghost predicate Lands(db: Db, db': Db, i: nat, returned: Txn, target: Status, updates: nat)
    requires i < |db.txns|
  {
    && Evolves(db, db')
    && db'.txns[i] == returned
    && returned.version == db.txns[i].version + updates && returned.status == target
  }

  lemma RefundBookingLands(db: Db, work: Work, i: nat, updated: Txn, p: nat, parent': Txn)
    requires RefundBooking(db, work, i, updated, p, parent')
    ensures Lands(db, Apply(db, work), i, updated, Succeeded, 1)
  {
    RefundBookingShape(db, work, i, updated, p, parent');
    UpdateIsAnEvolution(db.txns[i], db.txns[i].(status := Succeeded));
    var refunded := db.txns[p].refunded + updated.amount;
    UpdateIsAnEvolution(db.txns[p], db.txns[p].(refunded := refunded,
                        status := if refunded == db.txns[p].amount then Refunded else PartiallyRefunded));
  }

  lemma PaymentBookingLands(db: Db, work: Work, i: nat, updated: Txn)
    requires PaymentBooking(db, work, i, updated)
    ensures Lands(db, Apply(db, work), i, updated, Succeeded, 1)
  {
    PaymentBookingShape(db, work, i, updated);
    UpdateIsAnEvolution(db.txns[i], db.txns[i].(status := Succeeded));
  }

  lemma ReversalLands(db: Db, work: Work, i: nat, updated: Txn, final: Txn)
    requires Reversal(db, work, i, updated, final)
    ensures Lands(db, Apply(db, work), i, final, Status.Reversed, 2)
  {
    ReversalShape(db, work, i, updated, final);
    UpdateIsAnEvolution(db.txns[i], db.txns[i].(status := Status.Reversed));
    UpdateIsAnEvolution(updated, updated.(refunded := updated.amount));
  }

  lemma QuietLands(db: Db, work: Work, i: nat, target: Status)
    requires QuietTransition(db, work, i, target)
    ensures Lands(db, Apply(db, work), i, work.returned, target, 1)
  {
    OneWrite(db, work.writes[0]);
    LegalWriteEvolves(db, work.writes[0]);
    assert Apply(db, work) == ApplyWrite(db, work.writes[0]);
  }

  function Updates(from: Status, target: Status): nat {
    if from == Disputed && target == Status.Reversed then 2 else 1
  }

  lemma LateLands(db: Db, work: Work)
    requires work.writes == [] && work.entry.None? && work.late.Some?
    ensures Evolves(db, Apply(db, work))
  {
    assert Apply(db, work) == db.(exceptions := db.exceptions + [work.late.value]);
  }

  lemma ShapedLands(db: Db, i: nat, req: Request, work: Work)
    requires i < |db.txns| && Shaped(db, i, req, work) && work.late.None?
    ensures Lands(db, Apply(db, work), i, work.returned, req.target, Updates(db.txns[i].status, req.target))
  {
    var row := db.txns[i];
    if ConfirmsRefund(row, req.target) {
      var updated, parent' :| RefundBooking(db, work, i, updated, row.parent.value, parent') && work.returned == updated;
      RefundBookingLands(db, work, i, updated, row.parent.value, parent');
    } else if req.target == Succeeded && row.status == Pending {
      var updated :| PaymentBooking(db, work, i, updated) && work.returned == updated;
      PaymentBookingLands(db, work, i, updated);
    } else if req.target == Status.Reversed && row.status == Disputed {
      var updated, final :| Reversal(db, work, i, updated, final) && work.returned == final;
      ReversalLands(db, work, i, updated, final);
    } else {
      QuietLands(db, work, i, req.target);
    }
  }

  lemma TransitionEvolves(db: Db, req: Request)
    requires Inv(db)
    ensures Evolves(db, Transition(db, req).0)
  {
    var found := Find(db.txns, req.reference);
    if found.Some? {
      TransitionIsItsPlan(db, found.value, req);
      if Plan(db, found.value, req).Ok? {
        var work := Plan(db, found.value, req).value;
        if work.late.Some? {
          LateLands(db, work);
        } else {
          ShapedLands(db, found.value, req, work);
        }
      }
    }
  }

  lemma SweepEvolves(db: Db, batch: seq<nat>, now: int)
    requires RowsHold(db) && Sweepable(db, batch, now)
    ensures Evolves(db, Sweep(db, batch).0)
  {
    var r := PlanSweep(db.txns, batch);
    if r.Ok? {
      SweepIsQuiet(db, batch, now, r.value);
      QuietBatchEvolves(db, r.value);
    }
  }

  lemma InsertEvolves(db: Db, proposed: Txn, seen: Option<Txn>, now: int)
    requires Insert(db, proposed, seen, now).Ok?
    ensures Evolves(db, Insert(db, proposed, seen, now).value)
  {
  }

  lemma StepEvolves(db: Db, event: Event)
    requires Inv(db) && MayHappen(db, event)
    ensures Evolves(db, Step(db, event).0)
  {
    match event {
      case MerchantEvent(_) =>
      case SetActive(_, _) =>
      case CreateEvent(proposed, seen, now) =>
        if Insert(db, proposed, seen, now).Ok? {
          InsertEvolves(db, proposed, seen, now);
        }
      case TransitionEvent(req) => TransitionEvolves(db, req);
      case SweepEvent(batch, now) => SweepEvolves(db, batch, now);
    }
  }

  lemma {:induction false} RunEvolves(db: Db, events: seq<Event>)
    requires Inv(db) && IsRun(db, events)
    ensures Evolves(db, Run(db, events))
    decreases |events|
  {
    if events != [] {
      var db1 := Step(db, events[0]).0;
      StepKeepsInv(db, events[0]);
      StepEvolves(db, events[0]);
      RunEvolves(db1, events[1..]);
      EvolvesIsTransitive(db, db1, Run(db, events));
    }
  }

  // ---------------------------------------------------------------------------------------------
  // The version as a strong validator (RFC 9110, sections 8.8.1 and 13.1.1)
  // ---------------------------------------------------------------------------------------------

  /** Two committed observations of a transaction at the same version see the same row. */
  lemma VersionIsAStrongValidator(db: Db, events: seq<Event>, i: nat)
    requires Inv(db) && IsRun(db, events) && i < |db.txns|
    ensures var later := Run(db, events);
            i < |later.txns| && (later.txns[i].version == db.txns[i].version <==> later.txns[i] == db.txns[i])
  {
    RunEvolves(db, events);
  }

  /** A reference always designates the same row. */
  lemma ReferenceIsStable(db: Db, later: Db, reference: string)
    requires Inv(db) && Inv(later) && Evolves(db, later) && Find(db.txns, reference).Some?
    ensures Find(later.txns, reference) == Find(db.txns, reference)
  {
  }

  /** The row a transition returns is the row it committed, even when a lost dispute updates it twice; its version
      has gone up by one, or by two for a lost dispute. */
  lemma CommittedRow(db: Db, req: Request)
    requires Inv(db) && Transition(db, req).1.Committed?
    ensures Find(db.txns, req.reference).Some?
    ensures var i, db' := Find(db.txns, req.reference).value, Transition(db, req).0;
            && i < |db'.txns| && Transition(db, req).1.row == db'.txns[i]
            && db.txns[i].version == req.expected
            && db'.txns[i].version == req.expected + Updates(db.txns[i].status, req.target)
            && db'.txns[i].status == req.target
  {
    var i := Find(db.txns, req.reference).value;
    TransitionIsItsPlan(db, i, req);
    ShapedLands(db, i, req, Plan(db, i, req).value);
  }

  /** A request whose expected version has been passed is told so, and changes nothing. */
  lemma StaleRequest(db: Db, req: Request)
    requires Find(db.txns, req.reference).Some?
    requires db.txns[Find(db.txns, req.reference).value].version != req.expected
    ensures Transition(db, req) == (db, Rejected(PreconditionFailed))
  {
  }

  /** At most one update ever succeeds for a reference and an expected version, however many later steps separate
      the two attempts; the loser is told its version is stale. */
  lemma AtMostOneWinnerPerVersion(db: Db, req: Request, events: seq<Event>, again: Request)
    requires Inv(db) && Transition(db, req).1.Committed?
    requires IsRun(Transition(db, req).0, events)
    requires again.reference == req.reference && again.expected == req.expected
    ensures Transition(Run(Transition(db, req).0, events), again).1 == Rejected(PreconditionFailed)
  {
    var db1 := Transition(db, req).0;
    CommittedRow(db, req);
    TransitionKeepsInv(db, req);
    TransitionEvolves(db, req);
    RunKeepsInv(db1, events);
    RunEvolves(db1, events);
    ReferenceIsStable(db, db1, req.reference);
    ReferenceIsStable(db1, Run(db1, events), req.reference);
    StaleRequest(Run(db1, events), again);
  }
}
