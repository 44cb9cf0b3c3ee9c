/** The operator simulator: read a row, then transition it if it is still at that version. */
module Simulator {
  import opened Prelude
  import opened Rows
  import opened Booking
  import opened Database
  import opened Invariant
  import opened Runs
  import opened Evolution
  import opened Service
  import opened Theorems
  import opened Refusals

  /** However many SQL transactions commit between the read and the transition, the callback succeeds only on the row
      it read; if that row has changed in any way it is told so and changes nothing. */
  lemma CallbackActsOnWhatItRead(db: Db, events: seq<Event>, i: nat, req: Request)
    requires Inv(db) && IsRun(db, events) && Find(db.txns, req.reference) == Some(i) && req.expected == db.txns[i].version
    ensures var later := Run(db, events);
            && i < |later.txns|
            && (later.txns[i] != db.txns[i] ==> Transition(later, req) == (later, Rejected(PreconditionFailed)))
            && (Transition(later, req).1.Committed? ==> later.txns[i] == db.txns[i])
            && (Transition(later, req).1.LateRecorded? ==> db.txns[i].status == Expired)
  {
    var later := Run(db, events);
    RunKeepsInv(db, events);
    RunEvolves(db, events);
    ReferenceIsStable(db, later, req.reference);
    VersionIsAStrongValidator(db, events, i);
    TransitionIsItsPlan(later, i, req);
  }

  datatype Callback = Unknown | Ignored | Moved(row: Txn) | Warned(reply: Reply)

  /** A stale version is nothing to report; any other failure is logged. */
  function CallbackOf(reply: Reply): Callback {
    match reply
    case Committed(row) => Moved(row)
    case Rejected(PreconditionFailed) => Ignored
    case _ => Warned(reply)
  }

  /** A callback that reads `db` and acts on `later`. */
  function Attempt(db: Db, reference: string, expectedFrom: Status, to: Status, later: Db): (Db, Callback) {
    match Find(db.txns, reference)
    case None => (db, Unknown)
    case Some(i) =>
      if db.txns[i].status != expectedFrom then (db, Ignored)
      else
        var (db', reply) := Transition(later, Request(reference, to, db.txns[i].version, None));
        (db', CallbackOf(reply))
  }

  /** A callback that moved a transaction left the status it had read; one that lost a race to anybody, a human or
      another callback, does nothing. */
  lemma CallbackNeverForces(db: Db, events: seq<Event>, reference: string, expectedFrom: Status, to: Status)
    requires Inv(db) && IsRun(db, events)
    ensures var later := Run(db, events);
            var (db', o) := Attempt(db, reference, expectedFrom, to, later);
            && (o.Moved? ==>
                  var i := Find(db.txns, reference).value;
                  && i < |later.txns| && later.txns[i] == db.txns[i] && later.txns[i].status == expectedFrom
                  && i < |db'.txns| && db'.txns[i] == o.row && o.row.status == to)
            && (Find(db.txns, reference).Some? ==>
                  var i := Find(db.txns, reference).value;
                  i < |later.txns| && (later.txns[i] != db.txns[i] ==> o == Ignored && (db' == db || db' == later)))
  {
    var found := Find(db.txns, reference);
    if found.Some? {
      var later := Run(db, events);
      var req := Request(reference, to, db.txns[found.value].version, None);
      CallbackActsOnWhatItRead(db, events, found.value, req);
      RunKeepsInv(db, events);
      if db.txns[found.value].status == expectedFrom && Transition(later, req).1.Committed? {
        CommittedRow(later, req);
      }
    }
  }

  /** The outcome of a callback, field by field: unknown if and only if no row had the reference when it was read. */
  ghost predicate CallbackResult(db: Db, reference: string, expectedFrom: Status, to: Status, later: Db, db': Db, o: Callback) {
    if forall i :: 0 <= i < |db.txns| ==> db.txns[i].reference != reference then o == Unknown && db' == db
    else exists i: nat :: i < |db.txns| && db.txns[i].reference == reference && ActsOn(db, i, expectedFrom, to, later, db', o)
  }

  /** Ignored if and only if the row was at another status or has changed since. Otherwise the transition runs on the row as
      it was read, and its answer is the one it would give anybody: moved exactly when the status can be reached, with the
      tables of that transition; a warning with the reason in every other case. */
  ghost predicate ActsOn(db: Db, i: nat, expectedFrom: Status, to: Status, later: Db, db': Db, o: Callback)
    requires i < |db.txns|
  {
    var row := db.txns[i];
    && i < |later.txns|
    && if row.status != expectedFrom then o == Ignored && db' == db
       else if later.txns[i] != row then o == Ignored && db' == later
       else if row.status == Expired && to == Succeeded then
         && o == Warned(LateRecorded(|later.exceptions|))
         && db' == later.(exceptions := later.exceptions + [LateAck(i, None)])
       else match Refusal(later, i, to)
         case Some(e) => o == Warned(Rejected(e)) && db' == later && !Reaches(later, i, to)
         case None =>
           && Reaches(later, i, to)
           && o.Moved? && i < |db'.txns| && o.row == db'.txns[i]
           && o.row.status == to && o.row.version > row.version
           && (db', Committed(o.row)) == Transition(later, Request(row.reference, to, row.version, None))
  }

  lemma MovedRow(later: Db, i: nat, req: Request)
    requires Reachable(later) && Find(later.txns, req.reference) == Some(i) && Transition(later, req).1.Committed?
    ensures var (db', reply) := Transition(later, req);
            i < |db'.txns| && reply.row == db'.txns[i] && reply.row.status == req.target && reply.row.version > later.txns[i].version
  {
    ReachableHolds(later);
    CommittedRow(later, req);
  }

  lemma RowAnswer(later: Db, i: nat, req: Request)
    requires Reachable(later) && Find(later.txns, req.reference) == Some(i)
    ensures AnswerFor(later, i, req, Transition(later, req).1)
  {
    ReachableHolds(later);
    AnswerHolds(later, i, req);
  }

  lemma CallbackActs(later: Db, i: nat, req: Request)
    requires Reachable(later) && Find(later.txns, req.reference) == Some(i) && req.expected == later.txns[i].version
    requires !(later.txns[i].status == Expired && req.target == Succeeded)
    ensures var (db', reply) := Transition(later, req);
            match Refusal(later, i, req.target)
            case Some(e) => reply == Rejected(e) && e != PreconditionFailed && db' == later && !Reaches(later, i, req.target)
            case None =>
              && reply.Committed? && Reaches(later, i, req.target) && i < |db'.txns| && reply.row == db'.txns[i]
              && reply.row.status == req.target && reply.row.version > later.txns[i].version
  {
    RowAnswer(later, i, req);
    TransitionCommitsIff(later, req);
    RejectedChangesNothing(later, req);
    if Transition(later, req).1.Committed? {
      MovedRow(later, i, req);
    }
  }

  /** What a callback gets that runs on the row it read. */
  lemma UndisturbedCallback(db: Db, i: nat, expectedFrom: Status, to: Status, later: Db)
    requires i < |db.txns| && db.txns[i].status == expectedFrom && Reachable(later)
    requires i < |later.txns| && later.txns[i] == db.txns[i] && Find(later.txns, db.txns[i].reference) == Some(i)
    ensures var (db', reply) := Transition(later, Request(db.txns[i].reference, to, db.txns[i].version, None));
            ActsOn(db, i, expectedFrom, to, later, db', CallbackOf(reply))
  {
    var req := Request(db.txns[i].reference, to, db.txns[i].version, None);
    if later.txns[i].status == Expired && to == Succeeded {
      LateCallback(later, i, req);
    } else {
      CallbackActs(later, i, req);
    }
  }

  lemma LateCallback(later: Db, i: nat, req: Request)
    requires Reachable(later) && Find(later.txns, req.reference) == Some(i) && req.expected == later.txns[i].version
    requires later.txns[i].status == Expired && req.target == Succeeded
    ensures Transition(later, req) == (later.(exceptions := later.exceptions + [LateAck(i, req.providerReference)]),
                                       LateRecorded(|later.exceptions|))
  {
    RowAnswer(later, i, req);
    RejectedChangesNothing(later, req);
  }

  lemma RowAfterwards(db: Db, i: nat, later: Db)
    requires Reachable(db) && Later(db, later) && i < |db.txns|
    ensures Reachable(later) && i < |later.txns| && Find(later.txns, db.txns[i].reference) == Some(i)
    ensures later.txns[i] != db.txns[i] ==> later.txns[i].version != db.txns[i].version
  {
    var events :| IsRun(db, events) && Run(db, events) == later;
    ReachableHolds(db);
    LaterKeepsReachable(db, later);
    ReachableHolds(later);
    VersionIsAStrongValidator(db, events, i);
    RunEvolves(db, events);
    ReferenceIsStable(db, later, db.txns[i].reference);
  }

  lemma CallbackResults(db: Db, reference: string, expectedFrom: Status, to: Status, later: Db)
    requires Reachable(db) && Later(db, later)
    ensures var (db', o) := Attempt(db, reference, expectedFrom, to, later);
            CallbackResult(db, reference, expectedFrom, to, later, db', o)
  {
    var found := Find(db.txns, reference);
    if found.Some? {
      var i := found.value;
      RowAfterwards(db, i, later);
      if db.txns[i].status == expectedFrom {
        if later.txns[i] == db.txns[i] {
          UndisturbedCallback(db, i, expectedFrom, to, later);
        } else {
          StaleRequest(later, Request(reference, to, db.txns[i].version, None));
        }
      }
      var (db', o) := Attempt(db, reference, expectedFrom, to, later);
      assert ActsOn(db, i, expectedFrom, to, later, db', o);
    }
  }

  /** OperatorSimulatorProcessor.transitionIfStillAt. `later` is what other clients have made of the tables between the
      read and the transition. */
  method TransitionIfStillAt(ledger: Ledger, reference: string, expectedFrom: Status, to: Status, later: Db)
    returns (o: Callback)
    requires Reachable(ledger.State()) && Reachable(later)
    modifies ledger
    ensures (ledger.State(), o) == Attempt(old(ledger.State()), reference, expectedFrom, to, later)
    ensures Later(old(ledger.State()), later) ==>
              CallbackResult(old(ledger.State()), reference, expectedFrom, to, later, ledger.State(), o)
    ensures Reachable(ledger.State())
  {
    if Later(ledger.State(), later) {
      CallbackResults(ledger.State(), reference, expectedFrom, to, later);
    }
    var found := Find(ledger.txns, reference);
    if found.None? {
      return Unknown;
    }
    var current := ledger.txns[found.value];
    if current.status != expectedFrom {
      return Ignored;
    }
    ledger.Restore(later);
    var reply := ledger.Transition(Request(reference, to, current.version, None));
    o := CallbackOf(reply);
  }
}
