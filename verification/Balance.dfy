/** What the per-entry check at commit time is worth: global balance, sealing, and mirror entries. */
module Balance {
  import opened Prelude
  import opened Chart
  import opened Journal

  // ---------------------------------------------------------------------------------------------
  // From per-entry checks to the balance of the whole ledger
  // ---------------------------------------------------------------------------------------------

  ghost predicate WellFormed(book: Book) {
    && (forall k :: 0 <= k < |book.postings| ==> book.postings[k].entry < |book.entries|)
    && (forall k :: 0 <= k < |book.postings| ==> book.postings[k].line.amount > 0)
    && (forall e :: 0 <= e < |book.entries| && book.entries[e].reverses.Some? ==> book.entries[e].reverses.value < e)
  }

  /** Every committed entry passes the commit-time check. */
  ghost predicate AllValid(book: Book) {
    WellFormed(book) && forall e :: 0 <= e < |book.entries| ==> AssertEntryValid(book, e).Pass?
  }

  ghost predicate Balanced(postings: seq<PostingRow>, c: string) {
    Sum(postings, OfCurrency(c), Debit) == Sum(postings, OfCurrency(c), Credit)
  }

  lemma {:induction false} AddEntry(postings: seq<PostingRow>, n: nat, c: string, cn: string, d: Direction)
    requires forall k :: 0 <= k < |postings| && postings[k].entry == n ==> postings[k].line.currency == cn
    ensures Sum(postings, OfEntriesBelow(n + 1, c), d)
         == Sum(postings, OfEntriesBelow(n, c), d) + if c == cn then Sum(postings, OfEntry(n), d) else 0
  {
    if postings != [] {
      AddEntry(postings[..|postings| - 1], n, c, cn, d);
    }
  }

  lemma {:induction false} BalancedBelow(book: Book, n: nat, c: string)
    requires AllValid(book) && n <= |book.entries|
    ensures Sum(book.postings, OfEntriesBelow(n, c), Debit) == Sum(book.postings, OfEntriesBelow(n, c), Credit)
  {
    if n == 0 {
      SumOfNone(book.postings, OfEntriesBelow(0, c), Debit);
      SumOfNone(book.postings, OfEntriesBelow(0, c), Credit);
    } else {
      BalancedBelow(book, n - 1, c);
      assert AssertEntryValid(book, n - 1).Pass?;
      var cn := OneCurrency(LinesOf(book.postings, n - 1));
      forall k | 0 <= k < |book.postings| && book.postings[k].entry == n - 1
        ensures book.postings[k].line.currency == cn
      {
        LinesAreRows(book.postings, n - 1, book.postings[k].line);
      }
      AddEntry(book.postings, n - 1, c, cn, Debit);
      AddEntry(book.postings, n - 1, c, cn, Credit);
      EntrySum(book.postings, n - 1, Debit);
      EntrySum(book.postings, n - 1, Credit);
    }
  }

  /** If every entry passes its own check, debits equal credits in every currency, and a currency that
      has any posting has both sides. */
  lemma GlobalBalance(book: Book, c: string)
    requires AllValid(book)
    ensures Balanced(book.postings, c)
    ensures (exists k :: 0 <= k < |book.postings| && book.postings[k].line.currency == c) ==>
              Sum(book.postings, OfCurrency(c), Debit) > 0 && Sum(book.postings, OfCurrency(c), Credit) > 0
  {
    BalancedBelow(book, |book.entries|, c);
    SumAgree(book.postings, OfCurrency(c), OfEntriesBelow(|book.entries|, c), Debit);
    SumAgree(book.postings, OfCurrency(c), OfEntriesBelow(|book.entries|, c), Credit);
    SumIsNatural(book.postings, OfCurrency(c), Debit);
    SumIsNatural(book.postings, OfCurrency(c), Credit);
  }

  // ---------------------------------------------------------------------------------------------
  // v_trial_balance_violations, with SQL's NULL
  // ---------------------------------------------------------------------------------------------

  /** sum(amount) FILTER (...): NULL, not 0, when no row is selected. */
  function SqlSum(postings: seq<PostingRow>, c: string, d: Direction): Option<int> {
    if exists k :: 0 <= k < |postings| && postings[k].line.currency == c && postings[k].line.direction == d
    then Some(Sum(postings, OfCurrency(c), d))
    else None
  }

  /** The view has a row for the currency: HAVING keeps a group only when the comparison is true, not NULL. */
  predicate ViewReports(postings: seq<PostingRow>, c: string) {
    var debit, credit := SqlSum(postings, c, Debit), SqlSum(postings, c, Credit);
    debit.Some? && credit.Some? && debit.value != credit.value
  }

  predicate OneSided(postings: seq<PostingRow>, c: string) {
    SqlSum(postings, c, Debit).None? != SqlSum(postings, c, Credit).None?
  }

  /** For one currency, the view tells the truth if and only if the currency is not one-sided. */
  lemma ViewTellsTheTruthIff(postings: seq<PostingRow>, c: string)
    requires forall k :: 0 <= k < |postings| ==> postings[k].line.amount > 0
    ensures (!ViewReports(postings, c) <==> Balanced(postings, c)) <==> !OneSided(postings, c)
  {
    SumIsNatural(postings, OfCurrency(c), Debit);
    SumIsNatural(postings, OfCurrency(c), Credit);
  }

  /** A lone debit: the books are off by 100 and the view stays empty. */
  lemma ViewMissesALoneDebit()
    ensures var postings := [PostingRow(0, Line(Fees, Debit, 100, "XOF"))];
            !Balanced(postings, "XOF") && forall c :: !ViewReports(postings, c)
  {
    var postings := [PostingRow(0, Line(Fees, Debit, 100, "XOF"))];
    assert postings == [] + postings;
    SumAppend([], postings, OfCurrency("XOF"), Debit);
    SumOfNone(postings[..0], OfCurrency("XOF"), Debit);
    SumIsNatural(postings, OfCurrency("XOF"), Debit);
    SumIsNatural(postings, OfCurrency("XOF"), Credit);
    assert Selects(OfCurrency("XOF"), postings[0]);
  }

  /** With per-entry validity no currency is one-sided, so the view is empty and right to be. */
  lemma ViewIsEmpty(book: Book, c: string)
    requires AllValid(book)
    ensures !OneSided(book.postings, c) && !ViewReports(book.postings, c)
  {
    GlobalBalance(book, c);
    SumIsNatural(book.postings, OfCurrency(c), Debit);
    SumIsNatural(book.postings, OfCurrency(c), Credit);
  }

  // ---------------------------------------------------------------------------------------------
  // Arbitrary SQL transactions against the journal, manual entries and mirror entries included
  // ---------------------------------------------------------------------------------------------

  datatype Statement = InsertEntry(row: EntryRow) | InsertPosting(entry: nat, line: Line)

  /** An open SQL transaction: the tables as it sees them, and the entries whose created_tx_id is its own. */
  datatype OpenTx = OpenTx(book: Book, own: set<nat>)

  function Execute(accounts: Accounts, tx: OpenTx, s: Statement): Result<OpenTx> {
    match s
    case InsertEntry(row) =>
      var id := |tx.book.entries|;
      // Foreign key, unique index and the CHECK against self reversal on reverses_entry_id.
      :- Need(row.reverses.None? || row.reverses.value != id, CheckViolation);
      :- Need(row.reverses.None? || forall e :: 0 <= e < id ==> tx.book.entries[e].reverses != row.reverses, Duplicate);
      :- Need(row.reverses.None? || row.reverses.value < id, ForeignKey);
      Ok(OpenTx(tx.book.(entries := tx.book.entries + [row]), tx.own + {id}))
    case InsertPosting(entry, line) =>
      :- Need(line.account in accounts ==> accounts[line.account].active, InactiveAccount);
      :- Need(line.account in accounts ==> accounts[line.account].currency == line.currency, CurrencyMismatch);
      :- Need(entry in tx.own, SealedEntry);
      :- Need(line.amount > 0, CheckViolation);
      :- Need(line.account in accounts, ForeignKey);
      Ok(tx.(book := tx.book.(postings := tx.book.postings + [PostingRow(entry, line)])))
  }

  function ExecuteAll(accounts: Accounts, tx: OpenTx, statements: seq<Statement>): Result<OpenTx>
    decreases |statements|
  {
    if statements == [] then Ok(tx)
    else
      var next :- Execute(accounts, tx, statements[0]);
      ExecuteAll(accounts, next, statements[1..])
  }

  /** A whole SQL transaction: run, check every entry it created or posted to, commit or roll back. */
  function RunTransaction(accounts: Accounts, book: Book, statements: seq<Statement>): Book {
    match ExecuteAll(accounts, OpenTx(book, {}), statements)
    case Err(_) => book
    case Ok(tx) =>
      if forall e :: 0 <= e < |tx.book.entries| && e in tx.own ==> AssertEntryValid(tx.book, e).Pass?
      then tx.book else book
  }

  /** What holds half-way through: committed entries are untouched and still have exactly their lines. */
  ghost predicate Sealed(before: Book, tx: OpenTx) {
    && WellFormed(tx.book)
    && |before.entries| <= |tx.book.entries| && tx.book.entries[..|before.entries|] == before.entries
    && (forall e :: 0 <= e < |tx.book.entries| ==> (e in tx.own <==> |before.entries| <= e))
    && (forall e :: e in tx.own ==> e < |tx.book.entries|)
    && (forall e :: 0 <= e < |before.entries| ==> LinesOf(tx.book.postings, e) == LinesOf(before.postings, e))
  }

  lemma NewEntryKeepsSealed(before: Book, tx: OpenTx, row: EntryRow)
    requires Sealed(before, tx) && (row.reverses.Some? ==> row.reverses.value < |tx.book.entries|)
    ensures Sealed(before, OpenTx(tx.book.(entries := tx.book.entries + [row]), tx.own + {|tx.book.entries|}))
  {
    var entries' := tx.book.entries + [row];
    assert entries'[..|before.entries|] == tx.book.entries[..|before.entries|];
  }

  lemma NewPostingKeepsSealed(before: Book, tx: OpenTx, entry: nat, line: Line)
    requires Sealed(before, tx) && entry in tx.own && line.amount > 0
    ensures Sealed(before, tx.(book := tx.book.(postings := tx.book.postings + [PostingRow(entry, line)])))
  {
    var postings' := tx.book.postings + [PostingRow(entry, line)];
    assert postings'[..|postings'| - 1] == tx.book.postings;
    forall e | 0 <= e < |before.entries|
      ensures LinesOf(postings', e) == LinesOf(before.postings, e)
    {
      assert LinesOf(tx.book.postings, e) + [] == LinesOf(tx.book.postings, e);
    }
  }

  lemma ExecuteKeepsSealed(accounts: Accounts, before: Book, tx: OpenTx, s: Statement)
    requires Sealed(before, tx) && Execute(accounts, tx, s).Ok?
    ensures Sealed(before, Execute(accounts, tx, s).value)
  {
    match s {
      case InsertEntry(row) => NewEntryKeepsSealed(before, tx, row);
      case InsertPosting(entry, line) => NewPostingKeepsSealed(before, tx, entry, line);
    }
  }

  lemma {:induction false} ExecuteAllKeepsSealed(accounts: Accounts, before: Book, tx: OpenTx, statements: seq<Statement>)
    requires Sealed(before, tx) && ExecuteAll(accounts, tx, statements).Ok?
    ensures Sealed(before, ExecuteAll(accounts, tx, statements).value)
    decreases |statements|
  {
    if statements != [] {
      ExecuteKeepsSealed(accounts, before, tx, statements[0]);
      ExecuteAllKeepsSealed(accounts, before, Execute(accounts, tx, statements[0]).value, statements[1..]);
    }
  }

  /** Whatever statements a SQL transaction tries, every entry in the committed tables stays valid, and
      no committed entry ever gains, loses or changes a line. */
  lemma EveryTransactionKeepsTheLedgerValid(accounts: Accounts, book: Book, statements: seq<Statement>)
    requires AllValid(book)
    ensures var after := RunTransaction(accounts, book, statements);
            && AllValid(after)
            && |book.entries| <= |after.entries| && after.entries[..|book.entries|] == book.entries
            && forall e :: 0 <= e < |book.entries| ==> LinesOf(after.postings, e) == LinesOf(book.postings, e)
  {
    var r := ExecuteAll(accounts, OpenTx(book, {}), statements);
    assert book.entries[..|book.entries|] == book.entries;
    if r.Ok? {
      assert Sealed(book, OpenTx(book, {}));
      ExecuteAllKeepsSealed(accounts, book, OpenTx(book, {}), statements);
      var after := RunTransaction(accounts, book, statements);
      if after == r.value.book {
        forall e | 0 <= e < |after.entries|
          ensures AssertEntryValid(after, e).Pass?
        {
          if e < |book.entries| {
            assert after.entries[e] == after.entries[..|book.entries|][e];
            assert AssertEntryValid(book, e).Pass?;
          }
        }
      }
    }
  }

  /** What one SQL transaction tries, with the accounts as it finds them. */
  datatype Attempt = Attempt(accounts: Accounts, statements: seq<Statement>)

  function RunTransactions(book: Book, attempts: seq<Attempt>): Book
    decreases |attempts|
  {
    if attempts == [] then book
    else RunTransactions(RunTransaction(attempts[0].accounts, book, attempts[0].statements), attempts[1..])
  }

  /** The trial balance holds after any sequence of SQL transactions on a valid journal, an empty one for instance,
      whatever happens to the accounts in between. */
  lemma {:induction false} LedgerAlwaysBalances(book: Book, attempts: seq<Attempt>, c: string)
    requires AllValid(book)
    ensures var after := RunTransactions(book, attempts);
            AllValid(after) && Balanced(after.postings, c) && !ViewReports(after.postings, c)
    decreases |attempts|
  {
    if attempts == [] {
      GlobalBalance(book, c);
      ViewIsEmpty(book, c);
    } else {
      var next := RunTransaction(attempts[0].accounts, book, attempts[0].statements);
      EveryTransactionKeepsTheLedgerValid(attempts[0].accounts, book, attempts[0].statements);
      LedgerAlwaysBalances(next, attempts[1..], c);
    }
  }
}
