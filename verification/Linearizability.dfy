/** Every interleaving has the effect of running the SQL transactions one after the other, in commit order. */
module Linearizability {
  import opened Prelude
  import opened Rows
  import opened Booking
  import opened Database
  import opened Invariant
  import opened Runs
  import opened Evolution
  import opened Selection
  import opened Concurrency

  lemma {:induction false} WritesTouchOnlyTheirRows(db: Db, writes: seq<Write>, r: nat)
    requires r < |db.txns| && forall k :: 0 <= k < |writes| ==> writes[k].row != r
    ensures |ApplyWrites(db, writes).txns| == |db.txns| && ApplyWrites(db, writes).txns[r] == db.txns[r]
    decreases |writes|
  {
    if writes != [] {
      WritesTouchOnlyTheirRows(ApplyWrite(db, writes[0]), writes[1..], r);
    }
  }

  // ---------------------------------------------------------------------------------------------
  // Commits
  // ---------------------------------------------------------------------------------------------

  lemma PlanTouchesOnlyHeldRows(db: Db, req: Request, i: nat, other: Option<nat>, work: Work, r: nat)
    requires PhaseFits(db, TransitionTask(req), ToCommit(i, other, work))
    requires r !in Held(ToCommit(i, other, work))
    ensures forall k :: 0 <= k < |work.writes| ==> work.writes[k].row != r
  {
  }

  lemma CommitTouchesOnlyHeldRows(db: Db, req: Request, i: nat, other: Option<nat>, work: Work)
    requires PhaseFits(db, TransitionTask(req), ToCommit(i, other, work))
    ensures var db' := Apply(db, work);
            && db'.merchants == db.merchants && db'.accounts == db.accounts && |db'.txns| == |db.txns|
            && forall r :: 0 <= r < |db.txns| && r !in Held(ToCommit(i, other, work)) ==> db'.txns[r] == db.txns[r]
  {
    WritesKeepTables(db, work.writes);
    forall r | 0 <= r < |db.txns| && r !in Held(ToCommit(i, other, work))
      ensures Apply(db, work).txns[r] == db.txns[r]
    {
      PlanTouchesOnlyHeldRows(db, req, i, other, work, r);
      WritesTouchOnlyTheirRows(db, work.writes, r);
    }
  }

  lemma CommitIsContained(db: Db, req: Request, i: nat, other: Option<nat>, work: Work)
    requires Inv(db) && PhaseFits(db, TransitionTask(req), ToCommit(i, other, work))
    ensures Contained(db, Transition(db, req).0, Held(ToCommit(i, other, work)))
  {
    TransitionIsItsPlan(db, i, req);
    TransitionEvolves(db, req);
    CommitTouchesOnlyHeldRows(db, req, i, other, work);
  }

  lemma SweepIsContained(db: Db, batch: seq<nat>, now: int, writes: seq<Write>)
    requires Inv(db) && PhaseFits(db, SweepTask(now), SweepToCommit(batch, writes))
    ensures Contained(db, Sweep(db, batch).0, Held(SweepToCommit(batch, writes)))
  {
    SweepKeepsInv(db, batch, now);
    SweepEvolves(db, batch, now);
    var held := Held(SweepToCommit(batch, writes));
    WritesKeepTables(db, writes);
    forall r | 0 <= r < |db.txns| && r !in held
      ensures ApplyWrites(db, writes).txns[r] == db.txns[r]
    {
      forall k | 0 <= k < |writes|
        ensures writes[k].row != r
      {
        assert batch[k] in held;
      }
      WritesTouchOnlyTheirRows(db, writes, r);
    }
  }

  lemma {:induction false} WritesKeepTables(db: Db, writes: seq<Write>)
    ensures var db' := ApplyWrites(db, writes);
            db'.merchants == db.merchants && db'.accounts == db.accounts && |db'.txns| == |db.txns|
    decreases |writes|
  {
    if writes != [] {
      WritesKeepTables(ApplyWrite(db, writes[0]), writes[1..]);
    }
  }

  lemma InsertIsContained(db: Db, proposed: Txn, seen: Option<Txn>, at: int, held: set<nat>)
    requires Inv(db) && ProperCreate(db, proposed, seen) && Insert(db, proposed, seen, at).Ok?
    ensures Contained(db, Insert(db, proposed, seen, at).value, held)
  {
    StepKeepsInv(db, CreateEvent(proposed, seen, at));
    InsertEvolves(db, proposed, seen, at);
  }

  // ---------------------------------------------------------------------------------------------
  // One step of one client
  // ---------------------------------------------------------------------------------------------

  ghost predicate Sound(db: Db, task: Task, phase: Phase) {
    var (db', phase') := Advance(db, task, phase);
    && Contained(db, db', Held(phase))
    && PhaseFits(db', task, phase')
    && (phase'.Done? || db' == db)
    && NewLocksAreWanted(db, task, phase, phase')
  }

  ghost predicate NewLocksAreWanted(db: Db, task: Task, phase: Phase, phase': Phase) {
    forall r :: r in Held(phase') && r !in Held(phase) ==> Wants(db, task, phase) == Some(r)
  }

  /** Steps that read, compute, lock or give up leave the tables alone and stay consistent with them. */
  ghost predicate Quietly(db: Db, task: Task, phase: Phase) {
    var (db', phase') := Advance(db, task, phase);
    db' == db && PhaseFits(db, task, phase') && NewLocksAreWanted(db, task, phase, phase')
  }

  lemma LockedAdvances(db: Db, task: Task, phase: Phase)
    requires PhaseFits(db, task, phase) && phase.Locked?
    ensures Quietly(db, task, phase)
  {
  }

  lemma ParentLockedAdvances(db: Db, task: Task, phase: Phase)
    requires PhaseFits(db, task, phase) && phase.ParentLocked?
    ensures Quietly(db, task, phase)
  {
  }

  lemma OtherPhasesAdvance(db: Db, task: Task, phase: Phase)
    requires PhaseFits(db, task, phase) && (phase.StatusWritten? || phase.Picked? || (phase.Ready? && task.TransitionTask?))
    ensures Quietly(db, task, phase)
  {
  }

  lemma RefundInsertChecks(db: Db, task: Task)
    requires TaskFits(db, task) && task.InsertTask? && task.proposed.kind == Refund
    requires ChecksHold(db.txns[task.proposed.parent.value])
    ensures Quietly(db, task, Ready)
  {
  }

  /** A step that commits leaves the client done, and its request still fits the evolved tables. */
  lemma EndingIsSound(db: Db, task: Task, phase: Phase)
    requires PhaseFits(db, task, phase) && Contained(db, Advance(db, task, phase).0, Held(phase))
    requires Advance(db, task, phase).1.Done?
    ensures Sound(db, task, phase)
  {
  }

  lemma QuietIsSound(db: Db, task: Task, phase: Phase)
    requires Inv(db) && Quietly(db, task, phase)
    ensures Sound(db, task, phase)
  {
  }

  lemma InsertIsSound(db: Db, task: Task, phase: Phase, seen: Option<Txn>)
    requires Inv(db) && PhaseFits(db, task, phase) && task.InsertTask? && ProperCreate(db, task.proposed, seen)
    requires if task.proposed.kind == Payment then phase == Ready && seen.None? else seen.Some? && phase == Checked(seen.value)
    ensures Sound(db, task, phase)
  {
    if Insert(db, task.proposed, seen, task.at).Ok? {
      InsertIsContained(db, task.proposed, seen, task.at, {});
    }
    EndingIsSound(db, task, phase);
  }

  lemma MerchantIsSound(db: Db, task: Task)
    requires Inv(db) && task.MerchantTask?
    ensures Sound(db, task, Ready)
  {
    StepKeepsInv(db, MerchantEvent(task.code));
    StepEvolves(db, MerchantEvent(task.code));
    EndingIsSound(db, task, Ready);
  }

  lemma AdvanceIsSound(db: Db, task: Task, phase: Phase)
    requires Inv(db) && PhaseFits(db, task, phase) && !phase.Done? && !(phase.Ready? && task.SweepTask?)
    ensures Sound(db, task, phase)
  {
    match phase {
      case Ready =>
        if task.TransitionTask? {
          OtherPhasesAdvance(db, task, phase);
          QuietIsSound(db, task, phase);
        } else if task.MerchantTask? {
          MerchantIsSound(db, task);
        } else if task.proposed.kind == Payment {
          InsertIsSound(db, task, phase, None);
        } else {
          assert RowHolds(db, task.proposed.parent.value);
          RefundInsertChecks(db, task);
          QuietIsSound(db, task, phase);
        }
      case Locked(_, _) =>
        LockedAdvances(db, task, phase);
        QuietIsSound(db, task, phase);
      case StatusWritten(_, _, _, _) =>
        OtherPhasesAdvance(db, task, phase);
        QuietIsSound(db, task, phase);
      case ParentLocked(_, _, _, _, _) =>
        ParentLockedAdvances(db, task, phase);
        QuietIsSound(db, task, phase);
      case Picked(_) =>
        OtherPhasesAdvance(db, task, phase);
        QuietIsSound(db, task, phase);
      case ToCommit(i, other, work) =>
        CommitIsContained(db, task.req, i, other, work);
        EndingIsSound(db, task, phase);
      case SweepToCommit(batch, writes) =>
        SweepIsContained(db, batch, task.now, writes);
        EndingIsSound(db, task, phase);
      case Checked(seen) =>
        InsertIsSound(db, task, phase, Some(seen));
    }
  }

  /** When a client's SQL transaction ends, it ends as its atomic step would, run at that moment. */
  lemma EndIsAtomic(sys: System, s: nat)
    requires SysInv(sys) && s < |sys.phases| && !sys.phases[s].Done? && !(sys.phases[s].Ready? && sys.tasks[s].SweepTask?)
    ensures Linearized(sys, s, Go).Some? ==>
              var event := Linearized(sys, s, Go).value;
              MayHappen(sys.db, event) && Step(sys.db, event) == (Next(sys, s, Go).db, Next(sys, s, Go).phases[s].reply)
  {
    var db, task, phase := sys.db, sys.tasks[s], sys.phases[s];
    assert PhaseFits(db, task, phase);
    if Linearized(sys, s, Go).Some? && task.InsertTask? && phase.Ready? && task.proposed.kind == Refund {
      assert RowHolds(db, task.proposed.parent.value);
    }
  }

  lemma NewLocksWereFree(sys: System, s: nat, a: Action)
    requires SysInv(sys) && Enabled(sys, s, a)
    requires a == Go ==> Sound(sys.db, sys.tasks[s], sys.phases[s])
    ensures forall r :: r in Held(Next(sys, s, a).phases[s]) && r !in Held(sys.phases[s]) ==> r !in HeldByOthers(sys.phases, s)
  {
    if a.Pick? {
      forall r | r in Held(Picked(a.batch))
        ensures r !in HeldByOthers(sys.phases, s)
      {
        var k :| 0 <= k < |a.batch| && a.batch[k] == r;
        assert Eligible(sys.db.txns, sys.tasks[s].now, HeldByOthers(sys.phases, s), a.batch[k]);
      }
    }
  }

  lemma OtherClientsFit(sys: System, s: nat, q: nat, db': Db)
    requires SysInv(sys) && s < |sys.phases| && q < |sys.phases| && q != s
    requires Contained(sys.db, db', Held(sys.phases[s]))
    ensures PhaseFits(db', sys.tasks[q], sys.phases[q])
  {
    assert PhaseFits(sys.db, sys.tasks[q], sys.phases[q]);
    assert Held(sys.phases[s]) !! Held(sys.phases[q]);
    OthersAreUndisturbed(sys.db, db', Held(sys.phases[s]), sys.tasks[q], sys.phases[q]);
  }

  /** Locks stay exclusive when a client's new locks were free. */
  lemma LocksStayExclusive(phases: seq<Phase>, s: nat, phase': Phase)
    requires Exclusive(phases) && s < |phases|
    requires forall r :: r in Held(phase') && r !in Held(phases[s]) ==> r !in HeldByOthers(phases, s)
    ensures Exclusive(phases[s := phase'])
  {
  }

  lemma StepKeepsSysInv(sys: System, s: nat, a: Action)
    requires SysInv(sys) && Enabled(sys, s, a)
    ensures SysInv(Next(sys, s, a))
  {
    var sys' := Next(sys, s, a);
    assert PhaseFits(sys.db, sys.tasks[s], sys.phases[s]);
    if a == Go {
      AdvanceIsSound(sys.db, sys.tasks[s], sys.phases[s]);
    } else {
    }
    NewLocksWereFree(sys, s, a);
    LocksStayExclusive(sys.phases, s, sys'.phases[s]);
    forall q | 0 <= q < |sys.phases|
      ensures PhaseFits(sys'.db, sys'.tasks[q], sys'.phases[q])
    {
      if q != s {
        OtherClientsFit(sys, s, q, sys'.db);
      } else if a.Pick? {
      }
    }
  }

  // ---------------------------------------------------------------------------------------------
  // Whole schedules
  // ---------------------------------------------------------------------------------------------

  /** A client takes a step, or a new client arrives with its request. */
  datatype Move = Move(client: nat, action: Action) | Arrive(task: Task)

  ghost predicate MayMove(sys: System, move: Move)
    requires |sys.tasks| == |sys.phases|
  {
    match move
    case Move(s, a) => Enabled(sys, s, a)
    case Arrive(task) => TaskFits(sys.db, task)
  }

  ghost function After(sys: System, move: Move): (sys': System)
    requires |sys.tasks| == |sys.phases| && MayMove(sys, move)
    ensures |sys'.tasks| == |sys'.phases| >= |sys.phases|
  {
    match move
    case Move(s, a) => Next(sys, s, a)
    case Arrive(task) => sys.(tasks := sys.tasks + [task], phases := sys.phases + [Ready])
  }

  ghost predicate IsSchedule(sys: System, moves: seq<Move>)
    requires |sys.tasks| == |sys.phases|
    decreases |moves|
  {
    moves == [] || (MayMove(sys, moves[0]) && IsSchedule(After(sys, moves[0]), moves[1..]))
  }

  ghost function Execute(sys: System, moves: seq<Move>): (sys': System)
    requires |sys.tasks| == |sys.phases| && IsSchedule(sys, moves)
    ensures |sys'.tasks| == |sys'.phases| >= |sys.phases|
    decreases |moves|
  {
    if moves == [] then sys else Execute(After(sys, moves[0]), moves[1..])
  }

  /** The SQL transaction a move ends, and the reply its client gets. */
  ghost function Ended(sys: System, move: Move): (e: Option<(Event, Reply)>)
    requires |sys.tasks| == |sys.phases| && MayMove(sys, move)
  {
    if move.Move? && Linearized(sys, move.client, move.action).Some? then
      Some((Linearized(sys, move.client, move.action).value, Next(sys, move.client, move.action).phases[move.client].reply))
    else None
  }

  /** The SQL transactions of a schedule, in the order they ended; those a client abandoned are left out. */
  ghost function Serial(sys: System, moves: seq<Move>): seq<Event>
    requires |sys.tasks| == |sys.phases| && IsSchedule(sys, moves)
    decreases |moves|
  {
    if moves == [] then []
    else
      var ended := Ended(sys, moves[0]);
      (if ended.Some? then [ended.value.0] else []) + Serial(After(sys, moves[0]), moves[1..])
  }

  /** The replies the clients got, in the same order. */
  ghost function Replies(sys: System, moves: seq<Move>): seq<Reply>
    requires |sys.tasks| == |sys.phases| && IsSchedule(sys, moves)
    decreases |moves|
  {
    if moves == [] then []
    else
      var ended := Ended(sys, moves[0]);
      (if ended.Some? then [ended.value.1] else []) + Replies(After(sys, moves[0]), moves[1..])
  }

  ghost function SerialReplies(db: Db, events: seq<Event>): seq<Reply>
    requires IsRun(db, events)
    decreases |events|
  {
    if events == [] then [] else [Step(db, events[0]).1] + SerialReplies(Step(db, events[0]).0, events[1..])
  }

  lemma UnfinishedStepKeepsDb(sys: System, s: nat, a: Action)
    requires SysInv(sys) && Enabled(sys, s, a) && Linearized(sys, s, a).None?
    ensures Next(sys, s, a).db == sys.db
  {
    if a == Go {
      assert PhaseFits(sys.db, sys.tasks[s], sys.phases[s]);
      AdvanceIsSound(sys.db, sys.tasks[s], sys.phases[s]);
    }
  }

  lemma MoveKeepsSysInv(sys: System, move: Move)
    requires SysInv(sys) && MayMove(sys, move)
    ensures SysInv(After(sys, move))
  {
    match move {
      case Move(s, a) => StepKeepsSysInv(sys, s, a);
      case Arrive(_) =>
    }
  }

  /** A move that ends a SQL transaction is its atomic step; any other move leaves the tables alone. */
  lemma MoveIsAtomic(sys: System, move: Move)
    requires SysInv(sys) && MayMove(sys, move)
    ensures match Ended(sys, move)
            case Some((event, reply)) => MayHappen(sys.db, event) && Step(sys.db, event) == (After(sys, move).db, reply)
            case None => After(sys, move).db == sys.db
  {
    if move.Move? {
      if Linearized(sys, move.client, move.action).Some? {
        EndIsAtomic(sys, move.client);
      } else {
        UnfinishedStepKeepsDb(sys, move.client, move.action);
      }
    }
  }

  /** Linearizability: whatever the interleaving of transitions, sweeps, inserts and new merchants, and whenever their
      clients arrive, the committed tables are those of an atomic run of the same SQL transactions in the order they
      ended, and every client got the reply it would have got in that run. */
  lemma {:induction false} EveryInterleavingIsSerial(sys: System, moves: seq<Move>)
    requires SysInv(sys) && IsSchedule(sys, moves)
    ensures SysInv(Execute(sys, moves))
    ensures IsRun(sys.db, Serial(sys, moves)) && Run(sys.db, Serial(sys, moves)) == Execute(sys, moves).db
    ensures SerialReplies(sys.db, Serial(sys, moves)) == Replies(sys, moves)
    decreases |moves|
  {
    if moves != [] {
      var next := After(sys, moves[0]);
      MoveKeepsSysInv(sys, moves[0]);
      MoveIsAtomic(sys, moves[0]);
      EveryInterleavingIsSerial(next, moves[1..]);
      var ended, rest := Ended(sys, moves[0]), Serial(next, moves[1..]);
      if ended.Some? {
        assert Serial(sys, moves) == [ended.value.0] + rest;
        assert ([ended.value.0] + rest)[1..] == rest;
      } else {
        assert Serial(sys, moves) == rest;
        assert Replies(sys, moves) == Replies(next, moves[1..]);
      }
    }
  }

  // ---------------------------------------------------------------------------------------------
  // What clients may rely on
  // ---------------------------------------------------------------------------------------------

  /** A system whose clients have not started, if there are any yet, on a database the service can reach. */
  ghost predicate Fresh(sys: System) {
    && |sys.tasks| == |sys.phases| && Reachable(sys.db)
    && forall s :: 0 <= s < |sys.phases| ==> sys.phases[s] == Ready && TaskFits(sys.db, sys.tasks[s])
  }

  /** Every state an interleaving commits is one the atomic service can reach: all the theorems about reachable states
      hold under concurrency. In particular concurrent refund confirmations accumulate and none is lost. */
  lemma ConcurrentStatesAreReachable(sys: System, moves: seq<Move>)
    requires Fresh(sys) && IsSchedule(sys, moves)
    ensures SysInv(sys) && Reachable(Execute(sys, moves).db)
  {
    ReachableHolds(sys.db);
    EveryInterleavingIsSerial(sys, moves);
    var events :| IsRun(Initial(), events) && Run(Initial(), events) == sys.db;
    RunsConcatenate(Initial(), events, Serial(sys, moves));
  }

  predicate Sweeping(phase: Phase) {
    phase.Picked? || phase.SweepToCommit?
  }

  lemma BatchesAreDisjoint(phases: seq<Phase>, s: nat, q: nat)
    requires Exclusive(phases) && s < |phases| && q < |phases| && s != q && Sweeping(phases[s]) && Sweeping(phases[q])
    ensures forall j, k :: 0 <= j < |phases[s].batch| && 0 <= k < |phases[q].batch| ==> phases[s].batch[j] != phases[q].batch[k]
  {
    assert Held(phases[s]) !! Held(phases[q]);
    forall j, k | 0 <= j < |phases[s].batch| && 0 <= k < |phases[q].batch|
      ensures phases[s].batch[j] != phases[q].batch[k]
    {
      assert phases[s].batch[j] in Held(phases[s]) && phases[q].batch[k] in Held(phases[q]);
    }
  }

  /** Two sweeps that overlap never hold the same row. */
  lemma OverlappingSweepsAreDisjoint(sys: System, moves: seq<Move>, s: nat, q: nat)
    requires Fresh(sys) && IsSchedule(sys, moves)
    requires s < |Execute(sys, moves).phases| && q < |Execute(sys, moves).phases| && s != q
    ensures var a, b := Execute(sys, moves).phases[s], Execute(sys, moves).phases[q];
            Sweeping(a) && Sweeping(b) ==> forall j, k :: 0 <= j < |a.batch| && 0 <= k < |b.batch| ==> a.batch[j] != b.batch[k]
  {
    ConcurrentStatesAreReachable(sys, moves);
    EveryInterleavingIsSerial(sys, moves);
    var phases := Execute(sys, moves).phases;
    assert Exclusive(phases);
    if Sweeping(phases[s]) && Sweeping(phases[q]) {
      BatchesAreDisjoint(phases, s, q);
    }
  }
}
