/** The double-entry journal: entries, their lines, the triggers that guard them and the views over them. */
module Journal {
  import opened Prelude
  import opened Chart

  datatype Direction = Debit | Credit

  /** What a row of ledger_postings says; PostingRow adds the entry it belongs to. */
  datatype Line = Line(account: AccountName, direction: Direction, amount: int, currency: string)
  datatype PostingRow = PostingRow(entry: nat, line: Line)
  datatype EntryRow = EntryRow(transaction: Option<nat>, reverses: Option<nat>)

  /** The two append-only tables. The row number of an entry is its id. */
  datatype Book = Book(entries: seq<EntryRow>, postings: seq<PostingRow>)

  // ---------------------------------------------------------------------------------------------
  // Sums with a FILTER clause
  // ---------------------------------------------------------------------------------------------

  datatype Selection =
    | OfAccount(account: AccountName)
    | OfCurrency(currency: string)
    | OfEntry(entry: nat)
    | OfEntriesBelow(bound: nat, ofCurrency: string)
    | OfEntries(entries: set<nat>, at: AccountName)

  predicate Selects(s: Selection, row: PostingRow) {
    match s
    case OfAccount(a) => row.line.account == a
    case OfCurrency(c) => row.line.currency == c
    case OfEntry(e) => row.entry == e
    case OfEntriesBelow(n, c) => row.entry < n && row.line.currency == c
    case OfEntries(es, a) => row.entry in es && row.line.account == a
  }

  /** sum(amount) FILTER (WHERE direction = d) over the selected rows, 0 when there is none. */
  function Sum(rows: seq<PostingRow>, s: Selection, d: Direction): int {
    if rows == [] then 0
    else
      var last := rows[|rows| - 1];
      Sum(rows[..|rows| - 1], s, d) + if Selects(s, last) && last.line.direction == d then last.line.amount else 0
  }

  function Net(rows: seq<PostingRow>, s: Selection): int {
    Sum(rows, s, Debit) - Sum(rows, s, Credit)
  }

  lemma {:induction false} SumAppend(xs: seq<PostingRow>, ys: seq<PostingRow>, s: Selection, d: Direction)
    ensures Sum(xs + ys, s, d) == Sum(xs, s, d) + Sum(ys, s, d)
  {
    if ys == [] {
      assert xs + ys == xs;
    } else {
      assert (xs + ys)[..|xs + ys| - 1] == xs + ys[..|ys| - 1];
      SumAppend(xs, ys[..|ys| - 1], s, d);
    }
  }

  /** Two selections that pick the same rows have the same sum. */
  lemma {:induction false} SumAgree(rows: seq<PostingRow>, s: Selection, s': Selection, d: Direction)
    requires forall k :: 0 <= k < |rows| ==> Selects(s, rows[k]) == Selects(s', rows[k])
    ensures Sum(rows, s, d) == Sum(rows, s', d)
  {
    if rows != [] {
      SumAgree(rows[..|rows| - 1], s, s', d);
    }
  }

  lemma {:induction false} SumOfNone(rows: seq<PostingRow>, s: Selection, d: Direction)
    requires forall k :: 0 <= k < |rows| ==> !Selects(s, rows[k])
    ensures Sum(rows, s, d) == 0
  {
    if rows != [] {
      SumOfNone(rows[..|rows| - 1], s, d);
    }
  }

  lemma {:induction false} SumIsNatural(rows: seq<PostingRow>, s: Selection, d: Direction)
    requires forall k :: 0 <= k < |rows| ==> rows[k].line.amount > 0
    ensures Sum(rows, s, d) >= 0
    ensures Sum(rows, s, d) == 0 <==> forall k :: 0 <= k < |rows| ==> !(Selects(s, rows[k]) && rows[k].line.direction == d)
  {
    if rows != [] {
      var last := |rows| - 1;
      SumIsNatural(rows[..last], s, d);
      assert forall k :: 0 <= k < last ==> rows[..last][k] == rows[k];
      if Sum(rows, s, d) == 0 {
        forall k | 0 <= k < |rows|
          ensures !(Selects(s, rows[k]) && rows[k].line.direction == d)
        {
          if k < last {
            assert rows[..last][k] == rows[k];
          }
        }
      }
    }
  }

  // ---------------------------------------------------------------------------------------------
  // The lines of an entry
  // ---------------------------------------------------------------------------------------------

  function LinesOf(postings: seq<PostingRow>, e: nat): seq<Line> {
    if postings == [] then []
    else
      var last := postings[|postings| - 1];
      LinesOf(postings[..|postings| - 1], e) + if last.entry == e then [last.line] else []
  }

  /** Rows of ledger_postings for the lines of one entry. */
  function RowsFor(e: nat, lines: seq<Line>): (rows: seq<PostingRow>)
    ensures |rows| == |lines|
    ensures forall k :: 0 <= k < |lines| ==> rows[k] == PostingRow(e, lines[k])
  {
    seq(|lines|, k requires 0 <= k < |lines| => PostingRow(e, lines[k]))
  }

  lemma {:induction false} LinesAppend(xs: seq<PostingRow>, ys: seq<PostingRow>, e: nat)
    ensures LinesOf(xs + ys, e) == LinesOf(xs, e) + LinesOf(ys, e)
  {
    if ys == [] {
      assert xs + ys == xs;
    } else {
      assert (xs + ys)[..|xs + ys| - 1] == xs + ys[..|ys| - 1];
      LinesAppend(xs, ys[..|ys| - 1], e);
    }
  }

  lemma {:induction false} LinesOfRows(e: nat, lines: seq<Line>, f: nat)
    ensures LinesOf(RowsFor(e, lines), f) == if f == e then lines else []
  {
    if lines != [] {
      var init := lines[..|lines| - 1];
      assert RowsFor(e, lines)[..|lines| - 1] == RowsFor(e, init);
      LinesOfRows(e, init, f);
      assert init + [lines[|lines| - 1]] == lines;
    }
  }

  lemma {:induction false} NoLinesYet(postings: seq<PostingRow>, e: nat)
    requires forall k :: 0 <= k < |postings| ==> postings[k].entry != e
    ensures LinesOf(postings, e) == []
  {
    if postings != [] {
      NoLinesYet(postings[..|postings| - 1], e);
    }
  }

  /** A line of an entry is a posting row of that entry, and conversely. */
  lemma {:induction false} LinesAreRows(postings: seq<PostingRow>, e: nat, line: Line)
    ensures line in LinesOf(postings, e) <==> PostingRow(e, line) in postings
  {
    if postings != [] {
      var init := postings[..|postings| - 1];
      LinesAreRows(init, e, line);
      assert postings == init + [postings[|postings| - 1]];
    }
  }

  // ---------------------------------------------------------------------------------------------
  // fn_ledger_postings_before_insert and fn_assert_entry_valid
  // ---------------------------------------------------------------------------------------------

  /** What a single line must satisfy to be inserted, sealing apart. */
  function CheckLine(accounts: Accounts, line: Line): Outcome {
    if line.account !in accounts then Fail(MissingAccount)
    else if !accounts[line.account].active then Fail(InactiveAccount)
    else if accounts[line.account].currency != line.currency then Fail(CurrencyMismatch)
    else if line.amount <= 0 then Fail(CheckViolation)
    else Pass
  }

  function CheckLines(accounts: Accounts, lines: seq<Line>): (o: Outcome)
    ensures o.Fail? ==> o.error in {MissingAccount, InactiveAccount, CurrencyMismatch, CheckViolation}
  {
    if lines == [] then Pass
    else match CheckLine(accounts, lines[0])
      case Fail(e) => Fail(e)
      case Pass => CheckLines(accounts, lines[1..])
  }

  lemma {:induction false} CheckLinesPass(accounts: Accounts, lines: seq<Line>)
    ensures CheckLines(accounts, lines).Pass? <==> forall k :: 0 <= k < |lines| ==> CheckLine(accounts, lines[k]).Pass?
    ensures CheckLines(accounts, lines).Pass? <==>
              forall k :: 0 <= k < |lines| ==>
                && lines[k].account in accounts && accounts[lines[k].account].active
                && accounts[lines[k].account].currency == lines[k].currency && lines[k].amount > 0
  {
    if lines != [] {
      CheckLinesPass(accounts, lines[1..]);
      if CheckLines(accounts, lines).Pass? {
        forall k | 0 <= k < |lines|
          ensures CheckLine(accounts, lines[k]).Pass?
        {
          assert k > 0 ==> lines[k] == lines[1..][k - 1];
        }
      }
    }
  }

  function Flip(d: Direction): Direction {
    if d == Debit then Credit else Debit
  }

  /** The columns the mirror check compares; the currency is not among them. */
  datatype Side = Side(account: AccountName, direction: Direction, amount: int)

  function Sides(lines: seq<Line>): (sides: seq<Side>)
    ensures |sides| == |lines|
  {
    seq(|lines|, k requires 0 <= k < |lines| => Side(lines[k].account, lines[k].direction, lines[k].amount))
  }

  function FlippedSides(lines: seq<Line>): (sides: seq<Side>)
    ensures |sides| == |lines|
  {
    seq(|lines|, k requires 0 <= k < |lines| => Side(lines[k].account, Flip(lines[k].direction), lines[k].amount))
  }

  function RemoveFirst(s: Side, sides: seq<Side>): seq<Side> {
    if sides == [] then []
    else if sides[0] == s then sides[1..]
    else [sides[0]] + RemoveFirst(s, sides[1..])
  }

  /** EXCEPT ALL: each row on the right cancels one equal row on the left. */
  function ExceptAll(left: seq<Side>, right: seq<Side>): seq<Side>
    decreases |right|
  {
    if right == [] then left else ExceptAll(RemoveFirst(right[0], left), right[1..])
  }

  function DirectionTotal(lines: seq<Line>, d: Direction): int {
    if lines == [] then 0
    else DirectionTotal(lines[..|lines| - 1], d)
         + if lines[|lines| - 1].direction == d then lines[|lines| - 1].amount else 0
  }

  /** The commit-time rules, on the lines of the entry and of the entry it reverses, if any. */
  function CheckEntry(lines: seq<Line>, original: Option<seq<Line>>): Outcome {
    if |lines| < 2 then Fail(Unbalanced)
    else if |set line | line in lines :: line.currency| != 1 then Fail(CurrencyMismatch)
    else if DirectionTotal(lines, Debit) != DirectionTotal(lines, Credit) then Fail(Unbalanced)
    else if original.Some? &&
            ExceptAll(FlippedSides(original.value), Sides(lines)) + ExceptAll(Sides(lines), FlippedSides(original.value)) != []
    then Fail(NotAMirror)
    else Pass
  }

  /** fn_assert_entry_valid, run for an entry when its SQL transaction commits. */
  function AssertEntryValid(book: Book, e: nat): Outcome
    requires e < |book.entries|
  {
    CheckEntry(LinesOf(book.postings, e),
               match book.entries[e].reverses
               case None => None
               case Some(r) => Some(LinesOf(book.postings, r)))
  }

  lemma DirectionTotalPush(lines: seq<Line>, line: Line, d: Direction)
    ensures DirectionTotal(lines + [line], d) == DirectionTotal(lines, d) + if line.direction == d then line.amount else 0
  {
  }

  lemma {:induction false} EntrySum(postings: seq<PostingRow>, e: nat, d: Direction)
    ensures Sum(postings, OfEntry(e), d) == DirectionTotal(LinesOf(postings, e), d)
  {
    if postings != [] {
      var init, last := postings[..|postings| - 1], postings[|postings| - 1];
      EntrySum(init, e, d);
      var lines := LinesOf(init, e);
      if last.entry == e {
        DirectionTotalPush(lines, last.line, d);
      } else {
        assert lines + [] == lines;
      }
    }
  }

  lemma OneCurrency(lines: seq<Line>) returns (c: string)
    requires |set line | line in lines :: line.currency| == 1
    ensures forall line :: line in lines ==> line.currency == c
  {
    var currencies := set line | line in lines :: line.currency;
    c :| c in currencies;
    forall line | line in lines
      ensures line.currency == c
    {
      if line.currency != c {
        assert {c, line.currency} <= currencies;
        Subset({c, line.currency}, currencies);
      }
    }
  }

  lemma Subset(a: set<string>, b: set<string>)
    requires a <= b
    ensures |a| <= |b|
  {
    assert a + (b - a) == b;
  }

  lemma SameCurrency(lines: seq<Line>, c: string)
    requires lines != [] && forall line :: line in lines ==> line.currency == c
    ensures |set line | line in lines :: line.currency| == 1
  {
    var currencies := set line | line in lines :: line.currency;
    assert lines[0].currency in currencies;
    assert currencies == {c};
  }
}
