/** What holds of the database between any two SQL transactions. */
module Invariant {
  import opened Prelude
  import opened Chart
  import opened Journal
  import opened Balance
  import opened Rows
  import opened Totals
  import opened Booking
  import opened Database

  // ---------------------------------------------------------------------------------------------
  // Structure: kept by every single UPDATE
  // ---------------------------------------------------------------------------------------------

  ghost predicate ChartComplete(db: Db) {
    && Fees in db.accounts && db.accounts[Fees].kind == Revenue
    && (forall p :: Clearing(p) in db.accounts && db.accounts[Clearing(p)].kind == Asset)
    && (forall m :: m in db.merchants ==> Payable(m) in db.accounts && db.accounts[Payable(m)].kind == Liability)
  }

  /** The accounts a payment is booked on are in its currency. */
  ghost predicate CurrencyMatches(db: Db, t: Txn) {
    && Clearing(t.provider) in db.accounts && db.accounts[Clearing(t.provider)].currency == t.currency
    && Payable(t.merchant) in db.accounts && db.accounts[Payable(t.merchant)].currency == t.currency
  }

  ghost predicate ParentFits(db: Db, i: nat)
    requires i < |db.txns|
  {
    var t := db.txns[i];
    t.parent.Some? ==>
      && t.parent.value < i
      && var parent := db.txns[t.parent.value];
         && parent.kind == Payment && Booked(parent.status)
         && parent.provider == t.provider && parent.currency == t.currency && parent.merchant == t.merchant
         && t.amount <= parent.amount
  }

  ghost predicate RowHolds(db: Db, i: nat)
    requires i < |db.txns|
  {
    var t := db.txns[i];
    && ChecksHold(t)
    && 1 <= t.version <= MAX_INTEGER
    && t.merchant in db.merchants
    && ParentFits(db, i)
    && (Booked(t.status) ==> CurrencyMatches(db, t))
  }

  ghost predicate RowsHold(db: Db) {
    forall i :: 0 <= i < |db.txns| ==> RowHolds(db, i)
  }

  ghost predicate NoClashes(db: Db) {
    forall i, j :: 0 <= i < j < |db.txns| ==> !Clashes(db.txns[i], db.txns[j])
  }

  /** The history rows of one transaction, in append order. */
  function Trail(history: seq<Change>, i: nat): seq<Change> {
    if history == [] then []
    else
      var last := history[|history| - 1];
      Trail(history[..|history| - 1], i) + if last.txn == i then [last] else []
  }

  /** A path of the state machine: born INITIATED, each row continuing the previous one along an edge. */
  predicate IsPath(trail: seq<Change>) {
    && trail != []
    && trail[0].from == None && trail[0].to == Initiated
    && forall k :: 1 <= k < |trail| ==> trail[k].from == Some(trail[k - 1].to) && Edge(trail[k - 1].to, trail[k].to)
  }

  ghost predicate TrailHolds(db: Db, i: nat)
    requires i < |db.txns|
  {
    var trail := Trail(db.history, i);
    IsPath(trail) && trail[|trail| - 1].to == db.txns[i].status && |trail| <= db.txns[i].version
  }

  ghost predicate HistoryHolds(db: Db) {
    && (forall k :: 0 <= k < |db.history| ==> db.history[k].txn < |db.txns|)
    && forall i :: 0 <= i < |db.txns| ==> TrailHolds(db, i)
  }

  ghost predicate ExceptionHolds(db: Db, k: nat)
    requires k < |db.exceptions|
  {
    db.exceptions[k].txn < |db.txns| && db.txns[db.exceptions[k].txn].status == Expired
  }

  ghost predicate ExceptionsHold(db: Db) {
    forall k :: 0 <= k < |db.exceptions| ==> ExceptionHolds(db, k)
  }

  ghost predicate Structure(db: Db) {
    ChartComplete(db) && RowsHold(db) && NoClashes(db) && HistoryHolds(db) && ExceptionsHold(db)
  }

  // ---------------------------------------------------------------------------------------------
  // Money: kept by every SQL transaction
  // ---------------------------------------------------------------------------------------------

  /** A disputed payment has something left to take back; a reversed one has not. */
  ghost predicate DisputeHolds(txns: seq<Txn>, i: nat)
    requires i < |txns|
  {
    && (txns[i].status == Disputed ==> txns[i].refunded < txns[i].amount)
    && (txns[i].status == Reversed ==> txns[i].refunded == txns[i].amount)
  }

  ghost predicate DisputesHold(txns: seq<Txn>) {
    forall i :: 0 <= i < |txns| ==> DisputeHolds(txns, i)
  }

  function EntriesOf(entries: seq<EntryRow>, i: nat): set<nat> {
    set e | 0 <= e < |entries| && entries[e].transaction == Some(i)
  }

  /** How many entries a transaction has, from its status alone. */
  function ExpectedEntries(s: Status): nat {
    if BeforeMoney(s) then 0 else if s == Reversed then 2 else 1
  }

  /** What the entries of a transaction credit to an account. */
  function CreditedBy(book: Book, i: nat, a: AccountName): int {
    Sum(book.postings, OfEntries(EntriesOf(book.entries, i), a), Credit)
  }

  ghost predicate EntryHolds(db: Db, e: nat)
    requires e < |db.book.entries|
  {
    var entry := db.book.entries[e];
    entry.reverses.None? && entry.transaction.Some? && entry.transaction.value < |db.txns|
  }

  ghost predicate CountHolds(db: Db, i: nat)
    requires i < |db.txns|
  {
    |EntriesOf(db.book.entries, i)| == ExpectedEntries(db.txns[i].status)
  }

  ghost predicate EntriesHold(db: Db) {
    && AllValid(db.book)
    && (forall e :: 0 <= e < |db.book.entries| ==> EntryHolds(db, e))
    && forall i :: 0 <= i < |db.txns| ==> CountHolds(db, i)
  }

  /** Balances derived from postings are a closed form over the transactions. */
  ghost predicate BalanceHolds(db: Db, a: AccountName) {
    Net(db.book.postings, OfAccount(a)) == Total(Share(a), db.txns)
  }

  ghost predicate BalancesHold(db: Db) {
    forall a :: BalanceHolds(db, a)
  }

  /** The refunded amount is the confirmed refunds plus what a lost dispute took back. */
  ghost predicate RefundHolds(db: Db, i: nat)
    requires i < |db.txns|
  {
    var t := db.txns[i];
    var takenBack := CreditedBy(db.book, i, Clearing(t.provider));
    t.kind == Payment ==>
      && t.refunded == Total(RefundsOf(i), db.txns) + takenBack
      && (if t.status == Reversed then takenBack > 0 else takenBack == 0)
  }

  ghost predicate RefundsHold(db: Db) {
    forall i :: 0 <= i < |db.txns| ==> RefundHolds(db, i)
  }

  ghost predicate Money(db: Db) {
    DisputesHold(db.txns) && EntriesHold(db) && BalancesHold(db) && RefundsHold(db)
  }

  ghost predicate Inv(db: Db) {
    Structure(db) && Money(db)
  }

  lemma InitialHolds()
    ensures Inv(Initial())
  {
    var db := Initial();
    forall p
      ensures Clearing(p) in db.accounts && db.accounts[Clearing(p)].kind == Asset
    {
      match p case OrangeMoney => case MtnMomo => case Wave => case MoovMoney =>
    }
  }

  // ---------------------------------------------------------------------------------------------
  // One UPDATE keeps the structure
  // ---------------------------------------------------------------------------------------------

  /** A write that the triggers and CHECKs let through on the current row. */
  ghost predicate Allowed(db: Db, w: Write) {
    && w.row < |db.txns|
    && w.before == db.txns[w.row]
    && UpdateRow(w.before, w.after.(version := w.before.version)) == Ok(w.after)
  }

  /** Such a write in a SQL transaction whose postings, if the row is booked, pass their currency check. */
  ghost predicate Legal(db: Db, w: Write) {
    Allowed(db, w) && (Booked(w.after.status) ==> CurrencyMatches(db, w.after))
  }

  lemma TrailAppend(history: seq<Change>, c: Change, i: nat)
    ensures Trail(history + [c], i) == Trail(history, i) + if c.txn == i then [c] else []
  {
  }

  lemma {:induction false} TrailOfNone(history: seq<Change>, i: nat)
    requires forall k :: 0 <= k < |history| ==> history[k].txn != i
    ensures Trail(history, i) == []
  {
    if history != [] {
      TrailOfNone(history[..|history| - 1], i);
    }
  }

  lemma WriteKeepsTrail(db: Db, w: Write, i: nat)
    requires Allowed(db, w) && i < |db.txns| && TrailHolds(db, i)
    ensures TrailHolds(ApplyWrite(db, w), i)
  {
    if w.before.status != w.after.status {
      var c := Change(w.row, Some(w.before.status), w.after.status);
      TrailAppend(db.history, c, i);
      if w.row == i {
      }
    }
  }

  lemma WriteKeepsHistory(db: Db, w: Write)
    requires HistoryHolds(db) && Allowed(db, w)
    ensures HistoryHolds(ApplyWrite(db, w))
  {
    forall i | 0 <= i < |db.txns|
      ensures TrailHolds(ApplyWrite(db, w), i)
    {
      WriteKeepsTrail(db, w, i);
    }
  }

  lemma WriteKeepsRows(db: Db, w: Write)
    requires RowsHold(db) && Legal(db, w)
    ensures RowsHold(ApplyWrite(db, w))
  {
    var db' := ApplyWrite(db, w);
    forall i | 0 <= i < |db'.txns|
      ensures RowHolds(db', i)
    {
      assert RowHolds(db, i);
      if db.txns[i].parent.Some? {
        assert RowHolds(db, w.row);
      }
    }
  }

  lemma WriteKeepsExceptions(db: Db, w: Write)
    requires ExceptionsHold(db) && Allowed(db, w)
    ensures ExceptionsHold(ApplyWrite(db, w))
  {
    var db' := ApplyWrite(db, w);
    forall k | 0 <= k < |db'.exceptions|
      ensures ExceptionHolds(db', k)
    {
      assert ExceptionHolds(db, k);
    }
  }

  lemma WriteKeepsStructure(db: Db, w: Write)
    requires Structure(db) && Legal(db, w)
    ensures Structure(ApplyWrite(db, w))
  {
    WriteKeepsHistory(db, w);
    WriteKeepsRows(db, w);
    WriteKeepsExceptions(db, w);
  }
}
