/** The whole database as a value, and each SQL transaction of the service as a step on it. */
module Database {
  import opened Prelude
  import opened Chart
  import opened Journal
  import opened Rows
  import opened Booking

  /** A row of transaction_status_history, in append order. */
  datatype Change = Change(txn: nat, from: Option<Status>, to: Status)

  datatype Db = Db(
    merchants: set<string>,
    accounts: Accounts,
    txns: seq<Txn>,
    history: seq<Change>,
    book: Book,
    exceptions: seq<LateAck>)

  /** After the seed migrations: the demo merchant, one clearing account per operator, the fees account. */
  function Initial(): Db {
    var asset, liability, revenue :=
      Account(Asset, DEFAULT_CURRENCY, true), Account(Liability, DEFAULT_CURRENCY, true), Account(Revenue, DEFAULT_CURRENCY, true);
    Db({"demo"},
       map[Clearing(OrangeMoney) := asset, Clearing(MtnMomo) := asset, Clearing(Wave) := asset,
           Clearing(MoovMoney) := asset, Payable("demo") := liability, Fees := revenue],
       [], [], Book([], []), [])
  }

  /** The seed migration creates a clearing account for each operator, the demo merchant's payable account and the fees
      account, all in XOF and active, and nothing else. */
  lemma SeededAccounts()
    ensures forall a :: a in Initial().accounts <==> a.Clearing? || a == Payable("demo") || a == Fees
    ensures forall a :: a in Initial().accounts ==>
              Initial().accounts[a] == Account(if a.Clearing? then Asset else if a.Payable? then Liability else Revenue, "XOF", true)
    ensures Initial() == Db({"demo"}, Initial().accounts, [], [], Book([], []), [])
  {
    forall a: AccountName | a.Clearing?
      ensures a in {Clearing(OrangeMoney), Clearing(MtnMomo), Clearing(Wave), Clearing(MoovMoney)}
    {
      match a.provider {
        case OrangeMoney =>
        case MtnMomo =>
        case Wave =>
        case MoovMoney =>
      }
    }
  }

  // ---------------------------------------------------------------------------------------------
  // Committing the work of a SQL transaction
  // ---------------------------------------------------------------------------------------------

  /** One UPDATE by id: the row, if there is one, and its history row when the status changed. */
  function ApplyWrite(db: Db, w: Write): Db {
    if w.row >= |db.txns| then db
    else
      db.(txns := db.txns[w.row := w.after],
          history := if w.before.status == w.after.status then db.history
                     else db.history + [Change(w.row, Some(w.before.status), w.after.status)])
  }

  function ApplyWrites(db: Db, writes: seq<Write>): Db
    decreases |writes|
  {
    if writes == [] then db else ApplyWrites(ApplyWrite(db, writes[0]), writes[1..])
  }

  function AppendEntry(book: Book, draft: EntryDraft): Book {
    Book(book.entries + [EntryRow(Some(draft.transaction), None)],
         book.postings + RowsFor(|book.entries|, draft.lines))
  }

  function Apply(db: Db, work: Work): Db {
    var db1 := ApplyWrites(db, work.writes);
    db1.(book := if work.entry.Some? then AppendEntry(db.book, work.entry.value) else db.book,
         exceptions := if work.late.Some? then db.exceptions + [work.late.value] else db.exceptions)
  }

  datatype Reply =
    | Committed(row: Txn)
    | LateRecorded(exception_: nat)
    | Swept(count: nat)
    | Created(id: nat)
    | MerchantCreated
    | ActivitySet
    | Rejected(error: Error)

  /** COMMIT: the deferred check of the new entry decides between the new state and a rollback. */
  function Commit(db: Db, work: Work): (Db, Reply) {
    var db' := Apply(db, work);
    if work.entry.Some? && AssertEntryValid(db'.book, |db.book.entries|).Fail? then
      (db, Rejected(AssertEntryValid(db'.book, |db.book.entries|).error))
    else if work.late.Some? then (db', LateRecorded(|db.exceptions|))
    else (db', Committed(work.returned))
  }

  // ---------------------------------------------------------------------------------------------
  // TransactionsService.transition
  // ---------------------------------------------------------------------------------------------

  datatype Request = Request(reference: string, target: Status, expected: int, providerReference: Option<string>)

  /** A value looked up in a unique index of transactions. */
  datatype Unique = OnReference(reference: string) | OnKey(key: string)

  predicate Has(t: Txn, u: Unique) {
    match u
    case OnReference(reference) => t.reference == reference
    case OnKey(key) => t.key == key
  }

  function LookUp(txns: seq<Txn>, u: Unique): (i: Option<nat>)
    ensures i.Some? ==> i.value < |txns| && Has(txns[i.value], u)
    ensures i.None? ==> forall k :: 0 <= k < |txns| ==> !Has(txns[k], u)
  {
    if txns == [] then None
    else if Has(txns[|txns| - 1], u) then Some(|txns| - 1)
    else LookUp(txns[..|txns| - 1], u)
  }

  function Find(txns: seq<Txn>, reference: string): (i: Option<nat>)
    ensures i.Some? ==> i.value < |txns| && txns[i.value].reference == reference
    ensures i.None? ==> forall k :: 0 <= k < |txns| ==> txns[k].reference != reference
  {
    var i := LookUp(txns, OnReference(reference));
    assert i.None? ==> forall k :: 0 <= k < |txns| ==> !Has(txns[k], OnReference(reference));
    i
  }

  function Plan(db: Db, i: nat, req: Request): Result<Work>
    requires i < |db.txns|
  {
    var row := db.txns[i];
    :- Need(row.version == req.expected, PreconditionFailed);
    if ConfirmsRefund(row, req.target) then
      var updated :- UpdateRow(row, row.(status := Succeeded));
      :- Need(row.parent.Some? && row.parent.value < |db.txns|, NotFound);
      PlanRefund(db.merchants, db.accounts, i, row, updated, row.parent.value, db.txns[row.parent.value])
    else
      PlanAlone(db.merchants, db.accounts, i, row, req.target, req.providerReference)
  }

  function Transition(db: Db, req: Request): (Db, Reply) {
    match Find(db.txns, req.reference)
    case None => (db, Rejected(NotFound))
    case Some(i) =>
      match Plan(db, i, req)
      case Err(e) => (db, Rejected(e))
      case Ok(work) => Commit(db, work)
  }

  // ---------------------------------------------------------------------------------------------
  // The expiration sweep: one batch
  // ---------------------------------------------------------------------------------------------

  predicate Overdue(t: Txn, now: int) {
    t.status == Pending && t.expiresAt.Some? && t.expiresAt.value < now
  }

  predicate Distinct(batch: seq<nat>) {
    forall j, k :: 0 <= j < k < |batch| ==> batch[j] != batch[k]
  }

  /** Rows a batch may take: each one once, each one overdue. */
  predicate Sweepable(db: Db, batch: seq<nat>, now: int) {
    && Distinct(batch)
    && forall k :: 0 <= k < |batch| ==> batch[k] < |db.txns| && Overdue(db.txns[batch[k]], now)
  }

  function PlanSweep(txns: seq<Txn>, batch: seq<nat>): (r: Result<seq<Write>>)
    requires forall k :: 0 <= k < |batch| ==> batch[k] < |txns|
    ensures r.Ok? ==> |r.value| == |batch|
    ensures r.Ok? ==> forall k :: 0 <= k < |batch| ==> r.value[k].row == batch[k] && r.value[k].before == txns[batch[k]]
    ensures r.Ok? ==> forall k :: 0 <= k < |batch| ==>
                        UpdateRow(txns[batch[k]], txns[batch[k]].(status := Expired)) == Ok(r.value[k].after)
  {
    if batch == [] then Ok([])
    else
      var row := txns[batch[0]];
      var updated :- UpdateRow(row, row.(status := Expired));
      var rest :- PlanSweep(txns, batch[1..]);
      Ok([Write(batch[0], row, updated)] + rest)
  }

  function Sweep(db: Db, batch: seq<nat>): (Db, Reply)
    requires forall k :: 0 <= k < |batch| ==> batch[k] < |db.txns|
  {
    match PlanSweep(db.txns, batch)
    case Err(e) => (db, Rejected(e))
    case Ok(writes) => (ApplyWrites(db, writes), Swept(|batch|))
  }

  // ---------------------------------------------------------------------------------------------
  // Inserting payments and refunds
  // ---------------------------------------------------------------------------------------------

  predicate Clashes(a: Txn, b: Txn) {
    a.uuid == b.uuid || a.reference == b.reference || a.key == b.key
  }

  /** One INSERT: BEFORE trigger, CHECKs, unique indexes, foreign keys, history. */
  function Insert(db: Db, proposed: Txn, seen: Option<Txn>, now: int): Result<Db> {
    var row :- BeforeInsert(proposed, seen, now);
    :- Need(ChecksHold(row), CheckViolation);
    :- Need(forall k :: 0 <= k < |db.txns| ==> !Clashes(db.txns[k], row), Duplicate);
    :- Need(row.merchant in db.merchants && (row.parent.Some? ==> row.parent.value < |db.txns|), ForeignKey);
    Ok(db.(txns := db.txns + [row], history := db.history + [Change(|db.txns|, None, Initiated)]))
  }

  /** The parent row the BEFORE INSERT trigger reads when nothing else runs. */
  function CurrentParent(db: Db, proposed: Txn): Option<Txn> {
    if proposed.parent.Some? && proposed.parent.value < |db.txns| then Some(db.txns[proposed.parent.value]) else None
  }

  // ---------------------------------------------------------------------------------------------
  // Merchants
  // ---------------------------------------------------------------------------------------------

  const MAX_MERCHANT_CODE: nat := 50

  /** MerchantsService.create: the merchant and its payable account, or neither. */
  function AddMerchant(db: Db, code: string): (Db, Reply) {
    if |code| > MAX_MERCHANT_CODE then (db, Rejected(TooLong))
    else if code in db.merchants then (db, Rejected(Duplicate))
    else if !CodeFormat(CodeOf(Payable(code))) then (db, Rejected(CheckViolation))
    else if Payable(code) in db.accounts then (db, Rejected(Duplicate))
    else (db.(merchants := db.merchants + {code},
              accounts := db.accounts[Payable(code) := Account(Liability, DEFAULT_CURRENCY, true)]),
          MerchantCreated)
  }

  // ---------------------------------------------------------------------------------------------
  // Runs
  // ---------------------------------------------------------------------------------------------

  /** One committed or rolled-back SQL transaction. `SetActive` is the only update ledger_accounts allows. */
  datatype Event =
    | MerchantEvent(code: string)
    | SetActive(account: AccountName, active: bool)
    | CreateEvent(proposed: Txn, seen: Option<Txn>, now: int)
    | TransitionEvent(req: Request)
    | SweepEvent(batch: seq<nat>, now: int)

  /** What PaymentsService asks the database to insert. A refund copies its parent's provider, currency and
      merchant; `seen` is the parent as the trigger saw it, possibly already out of date at commit. */
  ghost predicate ProperCreate(db: Db, proposed: Txn, seen: Option<Txn>) {
    if proposed.kind == Payment then
      proposed.parent.None? && seen.None?
    else
      && proposed.parent.Some? && proposed.parent.value < |db.txns| && seen.Some?
      && var parent := db.txns[proposed.parent.value];
         && ChecksHold(seen.value) && RowEvolves(seen.value, parent)
         && proposed.provider == parent.provider
         && proposed.currency == parent.currency
         && proposed.merchant == parent.merchant
  }

  ghost predicate MayHappen(db: Db, event: Event) {
    match event
    case CreateEvent(proposed, seen, _) => ProperCreate(db, proposed, seen)
    case SweepEvent(batch, now) => Sweepable(db, batch, now)
    case _ => true
  }

  ghost function Step(db: Db, event: Event): (Db, Reply)
    requires MayHappen(db, event)
  {
    match event
    case MerchantEvent(code) => AddMerchant(db, code)
    case SetActive(a, active) =>
      (if a in db.accounts then db.(accounts := db.accounts[a := db.accounts[a].(active := active)]) else db, ActivitySet)
    case CreateEvent(proposed, seen, now) =>
      (match Insert(db, proposed, seen, now)
       case Err(e) => (db, Rejected(e))
       case Ok(db') => (db', Created(|db.txns|)))
    case TransitionEvent(req) => Transition(db, req)
    case SweepEvent(batch, _) => Sweep(db, batch)
  }

  ghost predicate IsRun(db: Db, events: seq<Event>)
    decreases |events|
  {
    events == [] || (MayHappen(db, events[0]) && IsRun(Step(db, events[0]).0, events[1..]))
  }

  ghost function Run(db: Db, events: seq<Event>): Db
    requires IsRun(db, events)
    decreases |events|
  {
    if events == [] then db else Run(Step(db, events[0]).0, events[1..])
  }
}
