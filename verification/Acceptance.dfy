/** Which entries the journal takes: the script of one entry commits exactly when it should. */
module Acceptance {
  import opened Prelude
  import opened Chart
  import opened Journal
  import opened Balance
  import opened Mirror
  import opened Booking
  import opened Database
  import opened Preservation

  /** One INSERT for each line of an entry. */
  function Postings(entry: nat, lines: seq<Line>): (statements: seq<Statement>)
    ensures |statements| == |lines|
  {
    seq(|lines|, k requires 0 <= k < |lines| => InsertPosting(entry, lines[k]))
  }

  /** What a service sends to post an entry: the entry, then its lines. */
  function Script(entry: nat, row: EntryRow, lines: seq<Line>): seq<Statement> {
    [InsertEntry(row)] + Postings(entry, lines)
  }

  /** The foreign key and the unique index on the entry that is reversed. */
  predicate ReversesFreely(book: Book, row: EntryRow) {
    row.reverses.Some? ==>
      && row.reverses.value < |book.entries|
      && forall e :: 0 <= e < |book.entries| ==> book.entries[e].reverses != row.reverses
  }

  function WithEntry(book: Book, row: EntryRow, lines: seq<Line>): Book {
    Book(book.entries + [row], book.postings + RowsFor(|book.entries|, lines))
  }

  /** The journal takes a line in its own SQL transaction exactly when the booking functions' check does. */
  lemma PostingRuns(accounts: Accounts, tx: OpenTx, entry: nat, line: Line)
    requires entry in tx.own
    ensures var r := Execute(accounts, tx, InsertPosting(entry, line));
            if CheckLine(accounts, line).Pass?
            then r == Ok(tx.(book := tx.book.(postings := tx.book.postings + [PostingRow(entry, line)])))
            else r.Err?
  {
  }

  lemma RowsForFirst(postings: seq<PostingRow>, entry: nat, lines: seq<Line>)
    requires lines != []
    ensures (postings + [PostingRow(entry, lines[0])]) + RowsFor(entry, lines[1..]) == postings + RowsFor(entry, lines)
  {
    assert RowsFor(entry, lines) == [PostingRow(entry, lines[0])] + RowsFor(entry, lines[1..]);
  }

  lemma {:induction false} PostingsRun(accounts: Accounts, tx: OpenTx, entry: nat, lines: seq<Line>)
    requires entry in tx.own
    ensures var r := ExecuteAll(accounts, tx, Postings(entry, lines));
            if CheckLines(accounts, lines).Pass?
            then r == Ok(tx.(book := tx.book.(postings := tx.book.postings + RowsFor(entry, lines))))
            else r.Err?
    decreases |lines|
  {
    if lines == [] {
      assert tx.book.postings + RowsFor(entry, []) == tx.book.postings;
    } else {
      var statements := Postings(entry, lines);
      assert statements[0] == InsertPosting(entry, lines[0]) && statements[1..] == Postings(entry, lines[1..]);
      PostingRuns(accounts, tx, entry, lines[0]);
      if CheckLine(accounts, lines[0]).Pass? {
        var next := tx.(book := tx.book.(postings := tx.book.postings + [PostingRow(entry, lines[0])]));
        PostingsRun(accounts, next, entry, lines[1..]);
        RowsForFirst(tx.book.postings, entry, lines);
      }
    }
  }

  function OriginalOf(book: Book, row: EntryRow): Option<seq<Line>> {
    match row.reverses
    case None => None
    case Some(r) => Some(LinesOf(book.postings, r))
  }

  /** The deferred check sees the new entry's lines, and those of the entry it reverses. */
  lemma NewEntryIsChecked(book: Book, row: EntryRow, lines: seq<Line>)
    requires WellFormed(book) && ReversesFreely(book, row)
    ensures AssertEntryValid(WithEntry(book, row, lines), |book.entries|) == CheckEntry(lines, OriginalOf(book, row))
  {
    var n := |book.entries|;
    NewEntryLines(book, EntryDraft(0, lines));
    if row.reverses.Some? {
      var r := row.reverses.value;
      LinesAppend(book.postings, RowsFor(n, lines), r);
      LinesOfRows(n, lines, r);
      assert LinesOf(book.postings, r) + [] == LinesOf(book.postings, r);
    }
  }

  lemma ScriptRuns(accounts: Accounts, book: Book, row: EntryRow, lines: seq<Line>)
    ensures var n := |book.entries|;
            var r := ExecuteAll(accounts, OpenTx(book, {}), Script(n, row, lines));
            if ReversesFreely(book, row) && CheckLines(accounts, lines).Pass?
            then r == Ok(OpenTx(WithEntry(book, row, lines), {n})) else r.Err?
  {
    var n := |book.entries|;
    var script := Script(n, row, lines);
    assert script[0] == InsertEntry(row) && script[1..] == Postings(n, lines);
    if ReversesFreely(book, row) {
      var next := OpenTx(book.(entries := book.entries + [row]), {n});
      assert {} + {n} == {n};
      assert Execute(accounts, OpenTx(book, {}), script[0]) == Ok(next);
      PostingsRun(accounts, next, n, lines);
    }
  }

  /** A SQL transaction that posts one entry commits if and only if the entry reverses none or one not yet reversed, each
      line is accepted, and the entry passes the check at commit; then the journal has grown by exactly that entry. */
  lemma EntryCommitsIff(accounts: Accounts, book: Book, row: EntryRow, lines: seq<Line>)
    requires WellFormed(book)
    ensures RunTransaction(accounts, book, Script(|book.entries|, row, lines)) ==
              if ReversesFreely(book, row) && CheckLines(accounts, lines).Pass? && CheckEntry(lines, OriginalOf(book, row)).Pass?
              then WithEntry(book, row, lines) else book
  {
    var n := |book.entries|;
    ScriptRuns(accounts, book, row, lines);
    if ReversesFreely(book, row) && CheckLines(accounts, lines).Pass? {
      NewEntryIsChecked(book, row, lines);
      var tx := OpenTx(WithEntry(book, row, lines), {n});
      assert n in tx.own;
    }
  }

  /** Every entry a booking drafts commits, and leaves the journal the service's steps say. */
  lemma BookingCommits(accounts: Accounts, book: Book, draft: EntryDraft)
    requires WellFormed(book) && Acceptable(draft.lines) && CheckLines(accounts, draft.lines).Pass?
    ensures RunTransaction(accounts, book, Script(|book.entries|, EntryRow(Some(draft.transaction), None), draft.lines))
         == AppendEntry(book, draft)
  {
    EntryCommitsIff(accounts, book, EntryRow(Some(draft.transaction), None), draft.lines);
    AcceptableLinesPass(draft.lines);
  }

  /** A reversal of an entry not yet reversed, in one currency and on open accounts, commits if and only if it is the
      entry's mirror. */
  lemma ReversalCommitsIff(accounts: Accounts, book: Book, e: nat, lines: seq<Line>)
    requires AllValid(book) && e < |book.entries| && ReversesFreely(book, EntryRow(None, Some(e)))
    requires CheckLines(accounts, lines).Pass?
    requires forall j, k :: 0 <= j < k < |lines| ==> lines[j].currency == lines[k].currency
    ensures RunTransaction(accounts, book, Script(|book.entries|, EntryRow(None, Some(e)), lines)) ==
              if IsMirror(LinesOf(book.postings, e), lines) then WithEntry(book, EntryRow(None, Some(e)), lines) else book
  {
    var original := LinesOf(book.postings, e);
    EntryCommitsIff(accounts, book, EntryRow(None, Some(e)), lines);
    EntryIsValidIff(lines, Some(original));
    assert AssertEntryValid(book, e).Pass?;
    if IsMirror(original, lines) {
      MirrorOfValidIsValid(original, OriginalOf(book, book.entries[e]), lines);
    }
  }

  function Opposite(lines: seq<Line>): (opposite: seq<Line>)
    ensures |opposite| == |lines|
    ensures forall k :: 0 <= k < |lines| ==>
              opposite[k] == lines[k].(direction := if lines[k].direction == Debit then Credit else Debit)
  {
    seq(|lines|, k requires 0 <= k < |lines| => lines[k].(direction := if lines[k].direction == Debit then Credit else Debit))
  }

  /** The exact mirror of any committed entry not yet reversed commits, as long as its accounts are open. */
  lemma ExactMirrorCommits(accounts: Accounts, book: Book, e: nat)
    requires AllValid(book) && e < |book.entries| && ReversesFreely(book, EntryRow(None, Some(e)))
    requires CheckLines(accounts, Opposite(LinesOf(book.postings, e))).Pass?
    ensures var lines := Opposite(LinesOf(book.postings, e));
            RunTransaction(accounts, book, Script(|book.entries|, EntryRow(None, Some(e)), lines))
              == WithEntry(book, EntryRow(None, Some(e)), lines)
  {
    var original := LinesOf(book.postings, e);
    assert AssertEntryValid(book, e).Pass?;
    EntryIsValidIff(original, OriginalOf(book, book.entries[e]));
    assert Sides(Opposite(original)) == FlippedSides(original);
    ReversalCommitsIff(accounts, book, e, Opposite(original));
  }
}
