/** Interleaved SQL transactions under row locks, step by step. Isolation is READ COMMITTED: a locking read returns the
    committed row at the moment the lock is granted, and nobody sees uncommitted writes. */
module Concurrency {
  import opened Prelude
  import opened Chart
  import opened Journal
  import opened Rows
  import opened Booking
  import opened Database
  import opened Invariant
  import opened Evolution
  import opened Selection

  datatype Task =
    | TransitionTask(req: Request)
    | SweepTask(now: int)
    | InsertTask(proposed: Txn, at: int)
    | MerchantTask(code: string)

  /** Where a client's SQL transaction stands, with what it has read and not yet committed. */
  datatype Phase =
    | Ready
    | Locked(i: nat, row: Txn)                                              // SELECT ... FOR UPDATE returned
    | StatusWritten(i: nat, row: Txn, updated: Txn, p: nat)                 // refund written, parent still to lock
    | ParentLocked(i: nat, row: Txn, updated: Txn, p: nat, parent: Txn)
    | ToCommit(i: nat, other: Option<nat>, work: Work)
    | Picked(batch: seq<nat>)                                               // sweep: rows selected and locked
    | SweepToCommit(batch: seq<nat>, writes: seq<Write>)
    | Checked(seen: Txn)                                                    // refund insert: trigger has read the parent
    | Done(reply: Reply)

  datatype System = System(db: Db, tasks: seq<Task>, phases: seq<Phase>)

  datatype Action = Go | Pick(batch: seq<nat>) | Abort

  /** The transactions rows a client has locked FOR UPDATE. */
  function Held(phase: Phase): set<nat> {
    match phase
    case Locked(i, _) => {i}
    case StatusWritten(i, _, _, _) => {i}
    case ParentLocked(i, _, _, p, _) => {i, p}
    case ToCommit(i, other, _) => if other.Some? then {i, other.value} else {i}
    case Picked(batch) => set k | 0 <= k < |batch| :: batch[k]
    case SweepToCommit(batch, _) => set k | 0 <= k < |batch| :: batch[k]
    case _ => {}
  }

  function HeldByOthers(phases: seq<Phase>, s: nat): set<nat> {
    set q, r | 0 <= q < |phases| && q != s && r in Held(phases[q]) :: r
  }

  /** The row a client must lock next, if its next step needs one. A refund insert needs its parent for the
      foreign key check, which conflicts with FOR UPDATE. */
  function Wants(db: Db, task: Task, phase: Phase): Option<nat> {
    match phase
    case Ready => if task.TransitionTask? then Find(db.txns, task.req.reference) else None
    case StatusWritten(_, _, _, p) => Some(p)
    case Checked(_) => if task.InsertTask? then task.proposed.parent else None
    case _ => None
  }

  predicate Granted(sys: System, s: nat)
    requires s < |sys.phases| && |sys.tasks| == |sys.phases|
  {
    var wanted := Wants(sys.db, sys.tasks[s], sys.phases[s]);
    wanted.Some? ==> wanted.value !in HeldByOthers(sys.phases, s)
  }

  ghost predicate Enabled(sys: System, s: nat, a: Action)
    requires |sys.tasks| == |sys.phases|
  {
    && s < |sys.phases| && !sys.phases[s].Done?
    && match a
       case Abort => true
       case Go => Granted(sys, s) && !(sys.phases[s].Ready? && sys.tasks[s].SweepTask?)
       case Pick(batch) =>
         && sys.phases[s].Ready? && sys.tasks[s].SweepTask?
         && IsBatch(sys.db.txns, sys.tasks[s].now, HeldByOthers(sys.phases, s), batch)
  }

  /** A client takes a row that it updates, or that its foreign key refers to, only when no other client has locked it. */
  lemma LocksAreRespected(sys: System, s: nat, q: nat)
    requires |sys.tasks| == |sys.phases| && s < |sys.phases| && q < |sys.phases| && s != q && Enabled(sys, s, Go)
    ensures sys.phases[s].Ready? && sys.tasks[s].TransitionTask? ==>
              forall i: nat :: Find(sys.db.txns, sys.tasks[s].req.reference) == Some(i) ==> i !in Held(sys.phases[q])
    ensures sys.phases[s].StatusWritten? ==> sys.phases[s].p !in Held(sys.phases[q])
    ensures sys.phases[s].Checked? && sys.tasks[s].InsertTask? ==>
              forall p: nat :: sys.tasks[s].proposed.parent == Some(p) ==> p !in Held(sys.phases[q])
  {
    forall r: nat | Wants(sys.db, sys.tasks[s], sys.phases[s]) == Some(r)
      ensures r !in Held(sys.phases[q])
    {
      assert r in Held(sys.phases[q]) ==> r in HeldByOthers(sys.phases, s);
    }
  }

  function Reject(db: Db, e: Error): (Db, Phase) {
    (db, Done(Rejected(e)))
  }

  /** The next step of a client that is not waiting. */
  function Advance(db: Db, task: Task, phase: Phase): (Db, Phase) {
    match phase
    case Ready =>
      (match task
       case TransitionTask(req) =>
         (match Find(db.txns, req.reference)
          case None => Reject(db, NotFound)
          case Some(i) => (db, Locked(i, db.txns[i])))
       case InsertTask(proposed, at) =>
         if proposed.kind == Payment then
           match Insert(db, proposed, None, at)
           case Err(e) => Reject(db, e)
           case Ok(db') => (db', Done(Created(|db.txns|)))
         else
           (match (CurrentParent(db, proposed), BeforeInsert(proposed, CurrentParent(db, proposed), at))
            case (None, _) => Reject(db, Error.ForeignKey)
            case (_, Err(e)) => Reject(db, e)
            case (Some(parent), Ok(_)) => (db, Checked(parent)))
       case MerchantTask(code) =>
         var (db', reply) := AddMerchant(db, code);
         (db', Done(reply))
       case SweepTask(_) => (db, phase))
    case Locked(i, row) =>
      if !task.TransitionTask? then (db, phase)
      else if row.version != task.req.expected then Reject(db, PreconditionFailed)
      else if ConfirmsRefund(row, task.req.target) then
        match UpdateRow(row, row.(status := Succeeded))
        case Err(e) => Reject(db, e)
        case Ok(updated) =>
          if row.parent.Some? && row.parent.value < |db.txns| then (db, StatusWritten(i, row, updated, row.parent.value))
          else Reject(db, NotFound)
      else
        (match PlanAlone(db.merchants, db.accounts, i, row, task.req.target, task.req.providerReference)
         case Err(e) => Reject(db, e)
         case Ok(work) => (db, ToCommit(i, None, work)))
    case StatusWritten(i, row, updated, p) =>
      (db, if p < |db.txns| then ParentLocked(i, row, updated, p, db.txns[p]) else phase)
    case ParentLocked(i, row, updated, p, parent) =>
      (match PlanRefund(db.merchants, db.accounts, i, row, updated, p, parent)
       case Err(e) => Reject(db, e)
       case Ok(work) => (db, ToCommit(i, Some(p), work)))
    case ToCommit(i, _, work) =>
      var (db', reply) := Commit(db, work);
      (db', Done(reply))
    case Picked(batch) =>
      if !(forall k :: 0 <= k < |batch| ==> batch[k] < |db.txns|) then (db, phase)
      else (match PlanSweep(db.txns, batch)
            case Err(e) => Reject(db, e)
            case Ok(writes) => (db, SweepToCommit(batch, writes)))
    case SweepToCommit(batch, writes) => (ApplyWrites(db, writes), Done(Swept(|batch|)))
    case Checked(seen) =>
      if !task.InsertTask? then (db, phase)
      else (match Insert(db, task.proposed, Some(seen), task.at)
            case Err(e) => Reject(db, e)
            case Ok(db') => (db', Done(Created(|db.txns|))))
    case Done(_) => (db, phase)
  }

  function Next(sys: System, s: nat, a: Action): System
    requires |sys.tasks| == |sys.phases| && s < |sys.phases|
  {
    match a
    case Abort => sys.(phases := sys.phases[s := Done(Rejected(ClientAborted))])
    case Pick(batch) => sys.(phases := sys.phases[s := Picked(batch)])
    case Go =>
      var (db', phase') := Advance(sys.db, sys.tasks[s], sys.phases[s]);
      sys.(db := db', phases := sys.phases[s := phase'])
  }

  /** The atomic step a client's last move amounts to: the whole SQL transaction, as if run alone at that moment. */
  function Linearized(sys: System, s: nat, a: Action): Option<Event>
    requires |sys.tasks| == |sys.phases| && s < |sys.phases|
  {
    if a != Go || sys.phases[s].Done? || !Next(sys, s, a).phases[s].Done? then None
    else match sys.tasks[s]
      case TransitionTask(req) => Some(TransitionEvent(req))
      case MerchantTask(code) => Some(MerchantEvent(code))
      case SweepTask(now) => Some(SweepEvent(if sys.phases[s].Picked? || sys.phases[s].SweepToCommit? then sys.phases[s].batch else [], now))
      case InsertTask(proposed, at) =>
        Some(CreateEvent(proposed, if sys.phases[s].Checked? then Some(sys.phases[s].seen)
                                   else if proposed.kind == Payment then None else CurrentParent(sys.db, proposed), at))
  }

  // ---------------------------------------------------------------------------------------------
  // What holds between the steps
  // ---------------------------------------------------------------------------------------------

  /** A refund insert was prepared from its parent row; what it copied is frozen. */
  ghost predicate TaskFits(db: Db, task: Task) {
    task.InsertTask? ==>
      if task.proposed.kind == Payment then task.proposed.parent.None?
      else
        && task.proposed.parent.Some? && task.proposed.parent.value < |db.txns|
        && var parent := db.txns[task.proposed.parent.value];
           && task.proposed.provider == parent.provider
           && task.proposed.currency == parent.currency
           && task.proposed.merchant == parent.merchant
  }

  /** A client's private copies agree with the committed rows it has locked. */
  ghost predicate Reads(db: Db, req: Request, i: nat, row: Txn) {
    i < |db.txns| && Find(db.txns, req.reference) == Some(i) && row == db.txns[i]
  }

  ghost predicate HalfWay(db: Db, req: Request, i: nat, row: Txn, updated: Txn, p: nat) {
    && Reads(db, req, i, row)
    && row.version == req.expected && ConfirmsRefund(row, req.target)
    && UpdateRow(row, row.(status := Succeeded)) == Ok(updated)
    && row.parent == Some(p) && p < |db.txns|
  }

  ghost predicate PhaseFits(db: Db, task: Task, phase: Phase) {
    && TaskFits(db, task)
    && match phase
       case Ready => true
       case Done(_) => true
       case Locked(i, row) => task.TransitionTask? && Reads(db, task.req, i, row)
       case StatusWritten(i, row, updated, p) => task.TransitionTask? && HalfWay(db, task.req, i, row, updated, p)
       case ParentLocked(i, row, updated, p, parent) =>
         task.TransitionTask? && HalfWay(db, task.req, i, row, updated, p) && parent == db.txns[p]
       case ToCommit(i, other, work) =>
         && task.TransitionTask? && i < |db.txns| && Find(db.txns, task.req.reference) == Some(i)
         && Plan(db, i, task.req) == Ok(work)
         && other == (if ConfirmsRefund(db.txns[i], task.req.target) then db.txns[i].parent else None)
       case Picked(batch) => task.SweepTask? && Sweepable(db, batch, task.now)
       case SweepToCommit(batch, writes) =>
         task.SweepTask? && Sweepable(db, batch, task.now) && PlanSweep(db.txns, batch) == Ok(writes)
       case Checked(seen) =>
         && task.InsertTask? && task.proposed.kind == Refund
         && ProperCreate(db, task.proposed, Some(seen))
         && BeforeInsert(task.proposed, Some(seen), task.at).Ok?
  }

  ghost predicate Exclusive(phases: seq<Phase>) {
    forall s, q :: 0 <= s < q < |phases| ==> Held(phases[s]) !! Held(phases[q])
  }

  ghost predicate SysInv(sys: System) {
    && |sys.tasks| == |sys.phases|
    && Inv(sys.db)
    && Exclusive(sys.phases)
    && forall s :: 0 <= s < |sys.phases| ==> PhaseFits(sys.db, sys.tasks[s], sys.phases[s])
  }

  // ---------------------------------------------------------------------------------------------
  // One step
  // ---------------------------------------------------------------------------------------------

  predicate AccountsStay(accounts: Accounts, accounts': Accounts) {
    forall a :: a in accounts ==> a in accounts' && accounts'[a] == accounts[a]
  }

  /** What a step of one client may do to the rest of the world. */
  ghost predicate Contained(db: Db, db': Db, held: set<nat>) {
    && Inv(db') && Evolves(db, db')
    && db.merchants <= db'.merchants && AccountsStay(db.accounts, db'.accounts)
    && forall r :: 0 <= r < |db.txns| && r !in held ==> db'.txns[r] == db.txns[r]
  }

  lemma {:induction false} CheckLinesStay(accounts: Accounts, accounts': Accounts, lines: seq<Line>)
    requires AccountsStay(accounts, accounts') && CheckLines(accounts, lines).Pass?
    ensures CheckLines(accounts', lines).Pass?
  {
    if lines != [] {
      CheckLinesStay(accounts, accounts', lines[1..]);
    }
  }

  lemma AcceptStays(db: Db, db': Db, t: Txn, lines: seq<Line>)
    requires db.merchants <= db'.merchants && AccountsStay(db.accounts, db'.accounts)
    requires Accept(db.merchants, db.accounts, t, lines).Ok?
    ensures Accept(db'.merchants, db'.accounts, t, lines) == Accept(db.merchants, db.accounts, t, lines)
  {
    CheckLinesStay(db.accounts, db'.accounts, lines);
  }

  /** A plan depends only on the rows it reads, and survives new merchants and accounts. */
  lemma PlanIsLocal(db: Db, db': Db, i: nat, req: Request)
    requires i < |db.txns| <= |db'.txns| && db'.txns[i] == db.txns[i] && RowHolds(db, i)
    requires db.merchants <= db'.merchants && AccountsStay(db.accounts, db'.accounts)
    requires ConfirmsRefund(db.txns[i], req.target) && db.txns[i].parent.Some? ==>
               db'.txns[db.txns[i].parent.value] == db.txns[db.txns[i].parent.value]
    requires Plan(db, i, req).Ok?
    ensures Plan(db', i, req) == Plan(db, i, req)
  {
    var row := db.txns[i];
    if !IsLateAck(row, req.target) {
      var updated := UpdateRow(row, row.(status := req.target)).value;
      if ConfirmsRefund(row, req.target) {
        AcceptStays(db, db', updated, TakeBackLines(updated, updated.amount));
      } else if req.target == Succeeded && row.status == Pending {
        AcceptStays(db, db', updated, PaymentLines(updated));
      } else if req.target == Reversed && row.status == Disputed {
        AcceptStays(db, db', updated, TakeBackLines(updated, updated.amount - updated.refunded));
      }
    }
  }

  lemma {:induction false} PlanSweepIsLocal(txns: seq<Txn>, txns': seq<Txn>, batch: seq<nat>)
    requires forall k :: 0 <= k < |batch| ==> batch[k] < |txns| <= |txns'| && txns'[batch[k]] == txns[batch[k]]
    ensures PlanSweep(txns', batch) == PlanSweep(txns, batch)
  {
    if batch != [] {
      assert forall k :: 0 <= k < |batch[1..]| ==> batch[1..][k] == batch[k + 1];
      PlanSweepIsLocal(txns, txns', batch[1..]);
    }
  }

  lemma PlanIsUndisturbed(db: Db, db': Db, held: set<nat>, task: Task, phase: Phase)
    requires db.merchants <= db'.merchants && AccountsStay(db.accounts, db'.accounts) && |db.txns| <= |db'.txns|
    requires forall r :: 0 <= r < |db.txns| && r !in held ==> db'.txns[r] == db.txns[r]
    requires held !! Held(phase) && phase.ToCommit? && PhaseFits(db, task, phase) && RowHolds(db, phase.i)
    requires Find(db'.txns, task.req.reference) == Some(phase.i)
    ensures PhaseFits(db', task, phase)
  {
    var row := db.txns[phase.i];
    assert phase.i in Held(phase);
    assert ConfirmsRefund(row, task.req.target) && row.parent.Some? ==> row.parent.value in Held(phase);
    PlanIsLocal(db, db', phase.i, task.req);
  }

  lemma SweepIsUndisturbed(db: Db, db': Db, held: set<nat>, task: Task, phase: Phase)
    requires Contained(db, db', held) && held !! Held(phase) && PhaseFits(db, task, phase)
    requires phase.Picked? || phase.SweepToCommit?
    ensures PhaseFits(db', task, phase)
  {
    BatchUndisturbed(db, db', held, phase.batch);
    PlanSweepIsLocal(db.txns, db'.txns, phase.batch);
  }

  /** A client that holds its rows is not disturbed by a step of another client. */
  lemma OthersAreUndisturbed(db: Db, db': Db, held: set<nat>, task: Task, phase: Phase)
    requires Inv(db) && Contained(db, db', held) && held !! Held(phase) && PhaseFits(db, task, phase)
    ensures PhaseFits(db', task, phase)
  {
    match phase {
      case Ready =>
      case Done(_) =>
      case ToCommit(i, _, _) =>
        ReferenceIsStable(db, db', task.req.reference);
        assert RowHolds(db, i);
        PlanIsUndisturbed(db, db', held, task, phase);
      case Picked(_) =>
        SweepIsUndisturbed(db, db', held, task, phase);
      case SweepToCommit(_, _) =>
        SweepIsUndisturbed(db, db', held, task, phase);
      case Checked(seen) =>
        RowEvolvesIsTransitive(seen, db.txns[task.proposed.parent.value], db'.txns[task.proposed.parent.value]);
      case _ =>
        ReferenceIsStable(db, db', task.req.reference);
        ReadsAreUndisturbed(db, db', held, task, phase);
    }
  }

  lemma ReadsAreUndisturbed(db: Db, db': Db, held: set<nat>, task: Task, phase: Phase)
    requires |db.txns| <= |db'.txns| && forall r :: 0 <= r < |db.txns| && r !in held ==> db'.txns[r] == db.txns[r]
    requires held !! Held(phase) && PhaseFits(db, task, phase)
    requires phase.Locked? || phase.StatusWritten? || phase.ParentLocked?
    requires Find(db'.txns, task.req.reference) == Find(db.txns, task.req.reference)
    ensures PhaseFits(db', task, phase)
  {
  }

  lemma BatchUndisturbed(db: Db, db': Db, held: set<nat>, batch: seq<nat>)
    requires Contained(db, db', held) && held !! (set k | 0 <= k < |batch| :: batch[k])
    requires forall k :: 0 <= k < |batch| ==> batch[k] < |db.txns|
    ensures forall k :: 0 <= k < |batch| ==> db'.txns[batch[k]] == db.txns[batch[k]]
  {
  }
}
