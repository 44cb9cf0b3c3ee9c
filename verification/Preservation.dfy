/** Every SQL transaction keeps the invariant. */
module Preservation {
  import opened Prelude
  import opened Chart
  import opened Journal
  import opened Balance
  import opened Rows
  import opened Totals
  import opened Commission
  import opened Booking
  import opened Database
  import opened Invariant

  // ---------------------------------------------------------------------------------------------
  // Appending one entry
  // ---------------------------------------------------------------------------------------------

  /** What lines post to one side of one account. */
  function Posted(lines: seq<Line>, a: AccountName, d: Direction): int {
    if lines == [] then 0
    else (if lines[0].account == a && lines[0].direction == d then lines[0].amount else 0) + Posted(lines[1..], a, d)
  }

  lemma SumOfOne(row: PostingRow, s: Selection, d: Direction)
    ensures Sum([row], s, d) == if Selects(s, row) && row.line.direction == d then row.line.amount else 0
  {
  }

  lemma {:induction false} PostedRows(e: nat, lines: seq<Line>, s: Selection, a: AccountName, d: Direction)
    requires s == OfAccount(a) || (s.OfEntries? && s.at == a && e in s.entries)
    ensures Sum(RowsFor(e, lines), s, d) == Posted(lines, a, d)
  {
    if lines != [] {
      PostedRows(e, lines[1..], s, a, d);
      var first := [PostingRow(e, lines[0])];
      assert RowsFor(e, lines) == first + RowsFor(e, lines[1..]);
      SumAppend(first, RowsFor(e, lines[1..]), s, d);
      SumOfOne(first[0], s, d);
    }
  }

  lemma AppendedBalance(book: Book, draft: EntryDraft, a: AccountName)
    ensures Net(AppendEntry(book, draft).postings, OfAccount(a))
         == Net(book.postings, OfAccount(a)) + Posted(draft.lines, a, Debit) - Posted(draft.lines, a, Credit)
  {
    var rows := RowsFor(|book.entries|, draft.lines);
    SumAppend(book.postings, rows, OfAccount(a), Debit);
    SumAppend(book.postings, rows, OfAccount(a), Credit);
    PostedRows(|book.entries|, draft.lines, OfAccount(a), a, Debit);
    PostedRows(|book.entries|, draft.lines, OfAccount(a), a, Credit);
  }

  lemma AppendedEntries(book: Book, draft: EntryDraft, i: nat)
    ensures EntriesOf(AppendEntry(book, draft).entries, i)
         == EntriesOf(book.entries, i) + if i == draft.transaction then {|book.entries|} else {}
  {
  }

  lemma AppendedCredit(book: Book, draft: EntryDraft, i: nat, a: AccountName)
    requires WellFormed(book)
    ensures CreditedBy(AppendEntry(book, draft), i, a)
         == CreditedBy(book, i, a) + if i == draft.transaction then Posted(draft.lines, a, Credit) else 0
  {
    var n, rows := |book.entries|, RowsFor(|book.entries|, draft.lines);
    var s, s' := OfEntries(EntriesOf(book.entries, i), a), OfEntries(EntriesOf(AppendEntry(book, draft).entries, i), a);
    AppendedEntries(book, draft, i);
    SumAppend(book.postings, rows, s', Credit);
    SumAgree(book.postings, s, s', Credit);
    if i == draft.transaction {
      PostedRows(n, draft.lines, s', a, Credit);
    } else {
      SumOfNone(rows, s', Credit);
    }
  }

  /** Lines the commit-time check accepts: two or more, positive, one currency, balanced. */
  ghost predicate Acceptable(lines: seq<Line>) {
    && |lines| >= 2
    && (forall k :: 0 <= k < |lines| ==> lines[k].amount > 0 && lines[k].currency == lines[0].currency)
    && DirectionTotal(lines, Debit) == DirectionTotal(lines, Credit)
  }

  lemma AcceptableLinesPass(lines: seq<Line>)
    requires Acceptable(lines)
    ensures CheckEntry(lines, None).Pass?
  {
    SameCurrency(lines, lines[0].currency);
  }

  lemma NewEntryLines(book: Book, draft: EntryDraft)
    requires WellFormed(book)
    ensures LinesOf(AppendEntry(book, draft).postings, |book.entries|) == draft.lines
  {
    var n := |book.entries|;
    LinesAppend(book.postings, RowsFor(n, draft.lines), n);
    LinesOfRows(n, draft.lines, n);
    NoLinesYet(book.postings, n);
    assert [] + draft.lines == draft.lines;
  }

  lemma NewEntryIsValid(book: Book, draft: EntryDraft)
    requires WellFormed(book) && Acceptable(draft.lines)
    ensures AssertEntryValid(AppendEntry(book, draft), |book.entries|).Pass?
  {
    NewEntryLines(book, draft);
    AcceptableLinesPass(draft.lines);
  }

  lemma OldEntryStaysValid(book: Book, draft: EntryDraft, e: nat)
    requires AllValid(book) && e < |book.entries|
    ensures AssertEntryValid(AppendEntry(book, draft), e).Pass?
  {
    var book', rows := AppendEntry(book, draft), RowsFor(|book.entries|, draft.lines);
    assert AssertEntryValid(book, e).Pass?;
    LinesAppend(book.postings, rows, e);
    LinesOfRows(|book.entries|, draft.lines, e);
    assert LinesOf(book'.postings, e) == LinesOf(book.postings, e);
    if book.entries[e].reverses.Some? {
      var r := book.entries[e].reverses.value;
      LinesAppend(book.postings, rows, r);
      LinesOfRows(|book.entries|, draft.lines, r);
      assert LinesOf(book'.postings, r) == LinesOf(book.postings, r);
    }
  }

  lemma AppendKeepsWellFormed(book: Book, draft: EntryDraft)
    requires WellFormed(book) && Acceptable(draft.lines)
    ensures WellFormed(AppendEntry(book, draft))
  {
  }

  /** The commit-time check accepts the new entry, and goes on accepting the old ones. */
  lemma AppendKeepsValid(book: Book, draft: EntryDraft)
    requires AllValid(book) && Acceptable(draft.lines)
    ensures AllValid(AppendEntry(book, draft))
  {
    AppendKeepsWellFormed(book, draft);
    NewEntryIsValid(book, draft);
    forall e | 0 <= e < |book.entries|
      ensures AssertEntryValid(AppendEntry(book, draft), e).Pass?
    {
      OldEntryStaysValid(book, draft, e);
    }
  }

  lemma AppendKeepsEntries(db: Db, db': Db, draft: EntryDraft)
    requires EntriesHold(db) && Acceptable(draft.lines) && draft.transaction < |db.txns|
    requires db'.book == AppendEntry(db.book, draft) && |db'.txns| == |db.txns|
    requires forall i :: 0 <= i < |db.txns| ==>
               ExpectedEntries(db'.txns[i].status) == ExpectedEntries(db.txns[i].status) + if i == draft.transaction then 1 else 0
    ensures EntriesHold(db')
  {
    AppendKeepsValid(db.book, draft);
    forall e | 0 <= e < |db'.book.entries|
      ensures EntryHolds(db', e)
    {
      assert e < |db.book.entries| ==> EntryHolds(db, e);
    }
    forall i | 0 <= i < |db'.txns|
      ensures CountHolds(db', i)
    {
      assert CountHolds(db, i);
      AppendedEntries(db.book, draft, i);
      assert |db.book.entries| !in EntriesOf(db.book.entries, i);
    }
  }

  // ---------------------------------------------------------------------------------------------
  // The entries the booking functions draft
  // ---------------------------------------------------------------------------------------------

  function On(line: Line, a: AccountName, d: Direction): int {
    if line.account == a && line.direction == d then line.amount else 0
  }

  function Towards(line: Line, d: Direction): int {
    if line.direction == d then line.amount else 0
  }

  lemma TwoLines(x: Line, y: Line, a: AccountName, d: Direction)
    ensures Posted([x, y], a, d) == On(x, a, d) + On(y, a, d)
    ensures DirectionTotal([x, y], d) == Towards(x, d) + Towards(y, d)
  {
    assert [x, y][1..] == [y] && [y][1..] == [];
    assert Posted([y], a, d) == On(y, a, d);
    DirectionTotalPush([], x, d);
    assert [] + [x] == [x];
    DirectionTotalPush([x], y, d);
    assert [x] + [y] == [x, y];
  }

  lemma ThreeLines(x: Line, y: Line, z: Line, a: AccountName, d: Direction)
    ensures Posted([x, y, z], a, d) == On(x, a, d) + On(y, a, d) + On(z, a, d)
    ensures DirectionTotal([x, y, z], d) == Towards(x, d) + Towards(y, d) + Towards(z, d)
  {
    assert [x, y, z][1..] == [y, z];
    TwoLines(y, z, a, d);
    TwoLines(x, y, a, d);
    DirectionTotalPush([x, y], z, d);
    assert [x, y] + [z] == [x, y, z];
  }

  lemma PaymentLinesPost(t: Txn, a: AccountName, d: Direction)
    requires t.amount > 0
    ensures Posted(PaymentLines(t), a, d) ==
              match a
              case Clearing(p) => if p == t.provider && d == Debit then t.amount else 0
              case Payable(m) => if m == t.merchant && d == Credit then t.amount - ComputeCommission(t.amount) else 0
              case Fees => if d == Credit then ComputeCommission(t.amount) else 0
    ensures DirectionTotal(PaymentLines(t), d) == t.amount
  {
    CommissionBounds(t.amount);
    var lines := PaymentLines(t);
    TwoLines(lines[0], lines[1], a, d);
    if |lines| == 2 {
      assert lines == [lines[0], lines[1]];
    } else {
      ThreeLines(lines[0], lines[1], lines[2], a, d);
      assert lines == [lines[0], lines[1], lines[2]];
    }
  }

  lemma TakeBackLinesPost(t: Txn, amount: int, a: AccountName, d: Direction)
    requires amount > 0
    ensures Posted(TakeBackLines(t, amount), a, d) ==
              match a
              case Clearing(p) => if p == t.provider && d == Credit then amount else 0
              case Payable(m) => if m == t.merchant && d == Debit then amount else 0
              case Fees => 0
    ensures DirectionTotal(TakeBackLines(t, amount), d) == amount
  {
    var lines := TakeBackLines(t, amount);
    TwoLines(lines[0], lines[1], a, d);
  }

  /** Both kinds of drafts pass the commit-time check. */
  lemma DraftsAreAcceptable(t: Txn, amount: int)
    requires t.amount > 0 && amount > 0
    ensures Acceptable(PaymentLines(t)) && Acceptable(TakeBackLines(t, amount))
  {
    CommissionBounds(t.amount);
    PaymentLinesPost(t, Fees, Debit);
    PaymentLinesPost(t, Fees, Credit);
    TakeBackLinesPost(t, amount, Fees, Debit);
    TakeBackLinesPost(t, amount, Fees, Credit);
  }

  /** Lines that were accepted name accounts in the currency of the row. */
  lemma AcceptedCurrency(db: Db, t: Txn, lines: seq<Line>)
    requires Accept(db.merchants, db.accounts, t, lines).Ok?
    requires lines == PaymentLines(t) || exists amount :: lines == TakeBackLines(t, amount)
    ensures CurrencyMatches(db, t)
  {
    CheckLinesPass(db.accounts, lines);
    assert CheckLine(db.accounts, lines[0]).Pass? && CheckLine(db.accounts, lines[1]).Pass?;
  }

  // ---------------------------------------------------------------------------------------------
  // Transitions that move no money
  // ---------------------------------------------------------------------------------------------

  ghost predicate Quiet(w: Write) {
    && w.before.refunded == w.after.refunded
    && !(w.before.status == Pending && w.after.status == Succeeded)
    && !(w.before.status == Disputed && w.after.status == Reversed)
  }

  lemma QuietWrite(db: Db, w: Write, m: Measure)
    requires ChecksHold(w.before) && Legal(db, w) && Quiet(w)
    ensures Weigh(m, w.before) == Weigh(m, w.after)
    ensures ExpectedEntries(w.before.status) == ExpectedEntries(w.after.status)
    ensures w.before.status == Reversed <==> w.after.status == Reversed
  {
  }

  lemma QuietWriteKeepsMoney(db: Db, w: Write)
    requires Money(db) && Legal(db, w) && Quiet(w) && ChecksHold(w.before)
    ensures Money(ApplyWrite(db, w))
  {
    var db' := ApplyWrite(db, w);
    forall m
      ensures Total(m, db'.txns) == Total(m, db.txns)
    {
      QuietWrite(db, w, m);
      TotalUpdate(m, db.txns, w.row, w.after);
    }
    forall a
      ensures BalanceHolds(db', a)
    {
      assert BalanceHolds(db, a);
    }
    forall i | 0 <= i < |db'.txns|
      ensures DisputeHolds(db'.txns, i) && CountHolds(db', i) && RefundHolds(db', i)
    {
      QuietWrite(db, w, Gross);
      assert DisputeHolds(db.txns, i) && CountHolds(db, i) && RefundHolds(db, i);
    }
    forall e | 0 <= e < |db'.book.entries|
      ensures EntryHolds(db', e)
    {
      assert EntryHolds(db, e);
    }
  }

  /** Writes of different rows, all legal now: what a sweep commits. */
  ghost predicate QuietBatch(db: Db, writes: seq<Write>) {
    && (forall k :: 0 <= k < |writes| ==> Legal(db, writes[k]) && Quiet(writes[k]))
    && (forall j, k :: 0 <= j < k < |writes| ==> writes[j].row != writes[k].row)
  }

  lemma RestOfBatch(db: Db, writes: seq<Write>)
    requires QuietBatch(db, writes) && writes != []
    ensures QuietBatch(ApplyWrite(db, writes[0]), writes[1..])
  {
  }

  lemma QuietWriteKeepsInv(db: Db, w: Write)
    requires Inv(db) && Legal(db, w) && Quiet(w)
    ensures Inv(ApplyWrite(db, w))
  {
    assert RowHolds(db, w.row);
    WriteKeepsStructure(db, w);
    QuietWriteKeepsMoney(db, w);
  }

  lemma {:induction false} QuietBatchKeepsInv(db: Db, writes: seq<Write>)
    requires Inv(db) && QuietBatch(db, writes)
    ensures Inv(ApplyWrites(db, writes))
    decreases |writes|
  {
    if writes != [] {
      RestOfBatch(db, writes);
      QuietWriteKeepsInv(db, writes[0]);
      QuietBatchKeepsInv(ApplyWrite(db, writes[0]), writes[1..]);
    }
  }

  // ---------------------------------------------------------------------------------------------
  // Transitions that move money: one entry appended, one row whose share of the accounts changes
  // ---------------------------------------------------------------------------------------------

  lemma EntryKeepsBalances(db: Db, db': Db, draft: EntryDraft, i: nat, t: Txn)
    requires BalancesHold(db) && i < |db.txns|
    requires db'.txns == db.txns[i := t] && db'.book == AppendEntry(db.book, draft)
    requires forall a :: Posted(draft.lines, a, Debit) - Posted(draft.lines, a, Credit)
                      == Weigh(Share(a), t) - Weigh(Share(a), db.txns[i])
    ensures BalancesHold(db')
  {
    forall a
      ensures BalanceHolds(db', a)
    {
      assert BalanceHolds(db, a);
      AppendedBalance(db.book, draft, a);
      TotalUpdate(Share(a), db.txns, i, t);
    }
  }

  /** Every payment's refunded amount moves by the refunds confirmed plus what the entry takes back from it. */
  ghost predicate RefundsMove(db: Db, db': Db, draft: EntryDraft) {
    && |db'.txns| == |db.txns| && db'.book == AppendEntry(db.book, draft)
    && forall j :: 0 <= j < |db.txns| ==> RefundMoves(db, db', draft, j)
  }

  ghost predicate RefundMoves(db: Db, db': Db, draft: EntryDraft, j: nat)
    requires j < |db.txns| == |db'.txns|
  {
    var t, t' := db.txns[j], db'.txns[j];
    var taken := if j == draft.transaction then Posted(draft.lines, Clearing(t.provider), Credit) else 0;
    && SameFrozenFields(t, t')
    && (t.kind == Payment ==>
          && t'.refunded - t.refunded == Total(RefundsOf(j), db'.txns) - Total(RefundsOf(j), db.txns) + taken
          && taken >= 0
          && (t'.status == Reversed <==> t.status == Reversed || taken > 0))
  }

  lemma EntryKeepsRefunds(db: Db, db': Db, draft: EntryDraft)
    requires RefundsHold(db) && WellFormed(db.book) && RefundsMove(db, db', draft)
    ensures RefundsHold(db')
  {
    forall j | 0 <= j < |db'.txns|
      ensures RefundHolds(db', j)
    {
      assert RefundHolds(db, j) && RefundMoves(db, db', draft, j);
      AppendedCredit(db.book, draft, j, Clearing(db.txns[j].provider));
    }
  }

  /** Structure does not read the journal. */
  lemma StructureIgnoresBook(db: Db, book: Book)
    requires Structure(db)
    ensures Structure(db.(book := book))
  {
    var db' := db.(book := book);
    forall i | 0 <= i < |db'.txns|
      ensures RowHolds(db', i) && TrailHolds(db', i)
    {
      assert RowHolds(db, i) && TrailHolds(db, i);
    }
    forall k | 0 <= k < |db'.exceptions|
      ensures ExceptionHolds(db', k)
    {
      assert ExceptionHolds(db, k);
    }
  }

  lemma OneWrite(db: Db, w: Write)
    requires w.row < |db.txns|
    ensures ApplyWrites(db, [w]) == ApplyWrite(db, w)
  {
  }

  lemma TwoWrites(db: Db, v: Write, w: Write)
    requires v.row < |db.txns| && w.row < |db.txns|
    ensures ApplyWrites(db, [v, w]) == ApplyWrite(ApplyWrite(db, v), w)
  {
    assert [v, w][1..] == [w];
    OneWrite(ApplyWrite(db, v), w);
  }

  // Payment confirmed

  ghost predicate PaymentBooking(db: Db, work: Work, i: nat, updated: Txn) {
    && i < |db.txns|
    && db.txns[i].kind == Payment && db.txns[i].status == Pending
    && UpdateRow(db.txns[i], db.txns[i].(status := Succeeded)) == Ok(updated)
    && Accept(db.merchants, db.accounts, updated, PaymentLines(updated)).Ok?
    && work.writes == [Write(i, db.txns[i], updated)] && work.late.None?
    && work.entry == Some(EntryDraft(i, PaymentLines(updated)))
  }

  lemma PaymentBookingShape(db: Db, work: Work, i: nat, updated: Txn)
    requires PaymentBooking(db, work, i, updated)
    ensures Apply(db, work) == ApplyWrite(db, work.writes[0]).(book := AppendEntry(db.book, work.entry.value))
    ensures Apply(db, work).txns == db.txns[i := updated]
  {
    OneWrite(db, work.writes[0]);
  }

  lemma PaymentBookingEntries(db: Db, work: Work, i: nat, updated: Txn)
    requires EntriesHold(db) && PaymentBooking(db, work, i, updated)
    ensures EntriesHold(Apply(db, work))
  {
    PaymentBookingShape(db, work, i, updated);
    DraftsAreAcceptable(updated, 1);
    AppendKeepsEntries(db, Apply(db, work), work.entry.value);
  }

  lemma PaymentBookingBalances(db: Db, work: Work, i: nat, updated: Txn)
    requires BalancesHold(db) && PaymentBooking(db, work, i, updated) && db.txns[i].refunded == 0
    ensures BalancesHold(Apply(db, work))
  {
    PaymentBookingShape(db, work, i, updated);
    forall a
      ensures Posted(PaymentLines(updated), a, Debit) - Posted(PaymentLines(updated), a, Credit)
           == Weigh(Share(a), updated) - Weigh(Share(a), db.txns[i])
    {
      PaymentLinesPost(updated, a, Debit);
      PaymentLinesPost(updated, a, Credit);
    }
    EntryKeepsBalances(db, Apply(db, work), work.entry.value, i, updated);
  }

  lemma PaymentBookingMovesRefunds(db: Db, work: Work, i: nat, updated: Txn)
    requires PaymentBooking(db, work, i, updated)
    ensures RefundsMove(db, Apply(db, work), work.entry.value)
  {
    var db' := Apply(db, work);
    PaymentBookingShape(db, work, i, updated);
    forall j | 0 <= j < |db.txns|
      ensures Total(RefundsOf(j), db'.txns) == Total(RefundsOf(j), db.txns)
    {
      TotalUpdate(RefundsOf(j), db.txns, i, updated);
    }
    PaymentLinesPost(updated, Clearing(updated.provider), Credit);
  }

  lemma PaymentBookingStructure(db: Db, work: Work, i: nat, updated: Txn)
    requires Structure(db) && PaymentBooking(db, work, i, updated)
    ensures Structure(Apply(db, work))
  {
    PaymentBookingShape(db, work, i, updated);
    AcceptedCurrency(db, updated, PaymentLines(updated));
    WriteKeepsStructure(db, work.writes[0]);
    StructureIgnoresBook(ApplyWrite(db, work.writes[0]), AppendEntry(db.book, work.entry.value));
  }

  lemma PaymentBookingDisputes(db: Db, work: Work, i: nat, updated: Txn)
    requires DisputesHold(db.txns) && PaymentBooking(db, work, i, updated)
    ensures DisputesHold(Apply(db, work).txns)
  {
    PaymentBookingShape(db, work, i, updated);
    forall j | 0 <= j < |db.txns|
      ensures DisputeHolds(Apply(db, work).txns, j)
    {
      assert DisputeHolds(db.txns, j);
    }
  }

  lemma PaymentBookingKeepsInv(db: Db, work: Work, i: nat, updated: Txn)
    requires Inv(db) && PaymentBooking(db, work, i, updated)
    ensures Inv(Apply(db, work))
  {
    assert RowHolds(db, i);
    PaymentBookingStructure(db, work, i, updated);
    PaymentBookingDisputes(db, work, i, updated);
    PaymentBookingEntries(db, work, i, updated);
    PaymentBookingBalances(db, work, i, updated);
    PaymentBookingMovesRefunds(db, work, i, updated);
    EntryKeepsRefunds(db, Apply(db, work), work.entry.value);
  }

  // Dispute lost

  ghost predicate Reversal(db: Db, work: Work, i: nat, updated: Txn, final: Txn) {
    && i < |db.txns|
    && db.txns[i].status == Disputed
    && UpdateRow(db.txns[i], db.txns[i].(status := Status.Reversed)) == Ok(updated)
    && RowAfterReversal(updated) == Ok(final)
    && work.writes == [Write(i, db.txns[i], updated), Write(i, updated, final)] && work.late.None?
    && work.entry == Some(EntryDraft(i, TakeBackLines(updated, updated.amount - updated.refunded)))
  }

  lemma ReversalShape(db: Db, work: Work, i: nat, updated: Txn, final: Txn)
    requires Reversal(db, work, i, updated, final)
    ensures ApplyWrite(db, work.writes[0]).txns == db.txns[i := updated]
    ensures Apply(db, work) == ApplyWrite(ApplyWrite(db, work.writes[0]), work.writes[1]).(book := AppendEntry(db.book, work.entry.value))
    ensures Apply(db, work).txns == db.txns[i := final]
  {
    TwoWrites(db, work.writes[0], work.writes[1]);
    assert db.txns[i := updated][i := final] == db.txns[i := final];
  }

  lemma ReversalEntries(db: Db, work: Work, i: nat, updated: Txn, final: Txn)
    requires EntriesHold(db) && Reversal(db, work, i, updated, final)
    ensures EntriesHold(Apply(db, work))
  {
    ReversalShape(db, work, i, updated, final);
    DraftsAreAcceptable(updated, updated.amount - updated.refunded);
    AppendKeepsEntries(db, Apply(db, work), work.entry.value);
  }

  lemma ReversalBalances(db: Db, work: Work, i: nat, updated: Txn, final: Txn)
    requires BalancesHold(db) && Reversal(db, work, i, updated, final) && db.txns[i].kind == Payment
    ensures BalancesHold(Apply(db, work))
  {
    ReversalShape(db, work, i, updated, final);
    var left := updated.amount - updated.refunded;
    forall a
      ensures Posted(TakeBackLines(updated, left), a, Debit) - Posted(TakeBackLines(updated, left), a, Credit)
           == Weigh(Share(a), final) - Weigh(Share(a), db.txns[i])
    {
      TakeBackLinesPost(updated, left, a, Debit);
      TakeBackLinesPost(updated, left, a, Credit);
    }
    EntryKeepsBalances(db, Apply(db, work), work.entry.value, i, final);
  }

  lemma ReversalMovesRefunds(db: Db, work: Work, i: nat, updated: Txn, final: Txn)
    requires Reversal(db, work, i, updated, final) && db.txns[i].kind == Payment
    ensures RefundsMove(db, Apply(db, work), work.entry.value)
  {
    var db' := Apply(db, work);
    ReversalShape(db, work, i, updated, final);
    forall j | 0 <= j < |db.txns|
      ensures Total(RefundsOf(j), db'.txns) == Total(RefundsOf(j), db.txns)
    {
      TotalUpdate(RefundsOf(j), db.txns, i, final);
    }
    TakeBackLinesPost(updated, updated.amount - updated.refunded, Clearing(updated.provider), Credit);
  }

  lemma ReversalStructure(db: Db, work: Work, i: nat, updated: Txn, final: Txn)
    requires Structure(db) && Reversal(db, work, i, updated, final)
    ensures Structure(Apply(db, work))
  {
    ReversalShape(db, work, i, updated, final);
    var db1 := ApplyWrite(db, work.writes[0]);
    assert RowHolds(db, i);
    WriteKeepsStructure(db, work.writes[0]);
    assert Legal(db1, work.writes[1]);
    WriteKeepsStructure(db1, work.writes[1]);
    StructureIgnoresBook(ApplyWrite(db1, work.writes[1]), AppendEntry(db.book, work.entry.value));
  }

  lemma ReversalDisputes(db: Db, work: Work, i: nat, updated: Txn, final: Txn)
    requires DisputesHold(db.txns) && Reversal(db, work, i, updated, final)
    ensures DisputesHold(Apply(db, work).txns)
  {
    ReversalShape(db, work, i, updated, final);
    forall j | 0 <= j < |db.txns|
      ensures DisputeHolds(Apply(db, work).txns, j)
    {
      assert DisputeHolds(db.txns, j);
    }
  }

  lemma ReversalKeepsInv(db: Db, work: Work, i: nat, updated: Txn, final: Txn)
    requires Inv(db) && Reversal(db, work, i, updated, final)
    ensures Inv(Apply(db, work))
  {
    assert RowHolds(db, i);
    ReversalDisputes(db, work, i, updated, final);
    ReversalStructure(db, work, i, updated, final);
    ReversalEntries(db, work, i, updated, final);
    ReversalBalances(db, work, i, updated, final);
    ReversalMovesRefunds(db, work, i, updated, final);
    EntryKeepsRefunds(db, Apply(db, work), work.entry.value);
  }

  // Refund confirmed

  ghost predicate RefundBooking(db: Db, work: Work, i: nat, updated: Txn, p: nat, parent': Txn) {
    && i < |db.txns| && p < |db.txns| && p != i
    && db.txns[i].kind == Refund && db.txns[i].status == Pending && db.txns[i].parent == Some(p)
    && UpdateRow(db.txns[i], db.txns[i].(status := Succeeded)) == Ok(updated)
    && ParentAfterRefund(updated, db.txns[p]) == Ok(parent')
    && Accept(db.merchants, db.accounts, updated, TakeBackLines(updated, updated.amount)).Ok?
    && work.writes == [Write(i, db.txns[i], updated), Write(p, db.txns[p], parent')] && work.late.None?
    && work.entry == Some(EntryDraft(i, TakeBackLines(updated, updated.amount)))
  }

  lemma RefundBookingShape(db: Db, work: Work, i: nat, updated: Txn, p: nat, parent': Txn)
    requires RefundBooking(db, work, i, updated, p, parent')
    ensures ApplyWrite(db, work.writes[0]).txns == db.txns[i := updated]
    ensures Apply(db, work) == ApplyWrite(ApplyWrite(db, work.writes[0]), work.writes[1]).(book := AppendEntry(db.book, work.entry.value))
    ensures Apply(db, work).txns == db.txns[i := updated][p := parent']
  {
    TwoWrites(db, work.writes[0], work.writes[1]);
  }

  ghost predicate Fits(refund: Txn, parent: Txn) {
    && ChecksHold(refund) && ChecksHold(parent)
    && parent.kind == Payment && Booked(parent.status)
    && parent.provider == refund.provider && parent.merchant == refund.merchant
  }

  lemma RefundBookingEntries(db: Db, work: Work, i: nat, updated: Txn, p: nat, parent': Txn)
    requires EntriesHold(db) && RefundBooking(db, work, i, updated, p, parent') && Fits(db.txns[i], db.txns[p])
    requires DisputeHolds(db.txns, p)
    ensures EntriesHold(Apply(db, work))
  {
    RefundBookingShape(db, work, i, updated, p, parent');
    DraftsAreAcceptable(updated, updated.amount);
    AppendKeepsEntries(db, Apply(db, work), work.entry.value);
  }

  lemma RefundBookingBalances(db: Db, work: Work, i: nat, updated: Txn, p: nat, parent': Txn)
    requires BalancesHold(db) && RefundBooking(db, work, i, updated, p, parent') && Fits(db.txns[i], db.txns[p])
    ensures BalancesHold(Apply(db, work))
  {
    RefundBookingShape(db, work, i, updated, p, parent');
    var db1 := db.(txns := db.txns[i := updated]);
    forall a
      ensures BalanceHolds(db1, a)
    {
      assert BalanceHolds(db, a);
      TotalUpdate(Share(a), db.txns, i, updated);
    }
    var lines := TakeBackLines(updated, updated.amount);
    forall a
      ensures Posted(lines, a, Debit) - Posted(lines, a, Credit) == Weigh(Share(a), parent') - Weigh(Share(a), db.txns[p])
    {
      TakeBackLinesPost(updated, updated.amount, a, Debit);
      TakeBackLinesPost(updated, updated.amount, a, Credit);
    }
    EntryKeepsBalances(db1, Apply(db, work), work.entry.value, p, parent');
  }

  lemma RefundBookingMovesRefund(db: Db, work: Work, i: nat, updated: Txn, p: nat, parent': Txn, j: nat)
    requires RefundBooking(db, work, i, updated, p, parent') && Fits(db.txns[i], db.txns[p]) && DisputeHolds(db.txns, p)
    requires j < |db.txns| && Apply(db, work).txns == db.txns[i := updated][p := parent']
    ensures RefundMoves(db, Apply(db, work), work.entry.value, j)
  {
    TotalUpdate(RefundsOf(j), db.txns, i, updated);
    TotalUpdate(RefundsOf(j), db.txns[i := updated], p, parent');
  }

  lemma RefundBookingMovesRefunds(db: Db, work: Work, i: nat, updated: Txn, p: nat, parent': Txn)
    requires RefundBooking(db, work, i, updated, p, parent') && Fits(db.txns[i], db.txns[p]) && DisputeHolds(db.txns, p)
    ensures RefundsMove(db, Apply(db, work), work.entry.value)
  {
    RefundBookingShape(db, work, i, updated, p, parent');
    forall j | 0 <= j < |db.txns|
      ensures RefundMoves(db, Apply(db, work), work.entry.value, j)
    {
      RefundBookingMovesRefund(db, work, i, updated, p, parent', j);
    }
  }

  lemma RefundBookingStructure(db: Db, work: Work, i: nat, updated: Txn, p: nat, parent': Txn)
    requires Structure(db) && RefundBooking(db, work, i, updated, p, parent')
    ensures Structure(Apply(db, work))
  {
    RefundBookingShape(db, work, i, updated, p, parent');
    var db1 := ApplyWrite(db, work.writes[0]);
    AcceptedCurrency(db, updated, TakeBackLines(updated, updated.amount));
    WriteKeepsStructure(db, work.writes[0]);
    assert RowHolds(db, i) && RowHolds(db, p);
    assert Legal(db1, work.writes[1]);
    WriteKeepsStructure(db1, work.writes[1]);
    StructureIgnoresBook(ApplyWrite(db1, work.writes[1]), AppendEntry(db.book, work.entry.value));
  }

  lemma RefundBookingDisputes(db: Db, work: Work, i: nat, updated: Txn, p: nat, parent': Txn)
    requires DisputesHold(db.txns) && RefundBooking(db, work, i, updated, p, parent')
    ensures DisputesHold(Apply(db, work).txns)
  {
    RefundBookingShape(db, work, i, updated, p, parent');
    forall j | 0 <= j < |db.txns|
      ensures DisputeHolds(Apply(db, work).txns, j)
    {
      assert DisputeHolds(db.txns, j);
    }
  }

  lemma RefundBookingKeepsInv(db: Db, work: Work, i: nat, updated: Txn, p: nat, parent': Txn)
    requires Inv(db) && RefundBooking(db, work, i, updated, p, parent')
    ensures Inv(Apply(db, work))
  {
    assert RowHolds(db, i) && RowHolds(db, p) && DisputeHolds(db.txns, p);
    RefundBookingStructure(db, work, i, updated, p, parent');
    RefundBookingDisputes(db, work, i, updated, p, parent');
    RefundBookingEntries(db, work, i, updated, p, parent');
    RefundBookingBalances(db, work, i, updated, p, parent');
    RefundBookingMovesRefunds(db, work, i, updated, p, parent');
    EntryKeepsRefunds(db, Apply(db, work), work.entry.value);
  }
}
