/** The LX008 test: an entry that reverses another must be its exact mirror image. */
module Mirror {
  import opened Prelude
  import opened Chart
  import opened Journal

  lemma {:induction false} RemoveFirstIsMinus(s: Side, sides: seq<Side>)
    ensures multiset(RemoveFirst(s, sides)) == multiset(sides) - multiset{s}
  {
    if sides != [] {
      assert sides == [sides[0]] + sides[1..];
      if sides[0] != s {
        RemoveFirstIsMinus(s, sides[1..]);
      }
    }
  }

  /** EXCEPT ALL, row by row, is subtraction of multisets. */
  lemma {:induction false} ExceptAllIsMinus(left: seq<Side>, right: seq<Side>)
    ensures multiset(ExceptAll(left, right)) == multiset(left) - multiset(right)
    decreases |right|
  {
    if right != [] {
      RemoveFirstIsMinus(right[0], left);
      ExceptAllIsMinus(RemoveFirst(right[0], left), right[1..]);
      assert right == [right[0]] + right[1..];
    }
  }

  ghost predicate IsMirror(original: seq<Line>, reversal: seq<Line>) {
    multiset(FlippedSides(original)) == multiset(Sides(reversal))
  }

  /** The two EXCEPT ALL queries are both empty exactly when one side is the flipped copy of the other. */
  lemma MirrorTestIsExact(original: seq<Line>, reversal: seq<Line>)
    ensures ExceptAll(FlippedSides(original), Sides(reversal)) + ExceptAll(Sides(reversal), FlippedSides(original)) == []
       <==> IsMirror(original, reversal)
  {
    var a, b := FlippedSides(original), Sides(reversal);
    ExceptAllIsMinus(a, b);
    ExceptAllIsMinus(b, a);
    var ab, ba := ExceptAll(a, b), ExceptAll(b, a);
    if ab + ba == [] {
      assert ab == [] && ba == [];
      forall s
        ensures multiset(a)[s] == multiset(b)[s]
      {
        assert (multiset(a) - multiset(b))[s] == 0 && (multiset(b) - multiset(a))[s] == 0;
      }
    }
    if IsMirror(original, reversal) {
      assert |multiset(ab)| == |ab| && |multiset(ba)| == |ba|;
    }
  }

  /** Debits minus credits over compared rows, of one account or of all. */
  function Effect(sides: seq<Side>, a: Option<AccountName>): int {
    if sides == [] then 0 else Amount(sides[0], a) + Effect(sides[1..], a)
  }

  function Amount(s: Side, a: Option<AccountName>): int {
    if a.Some? && s.account != a.value then 0 else if s.direction == Debit then s.amount else -s.amount
  }

  lemma {:induction false} EffectAppend(xs: seq<Side>, ys: seq<Side>, a: Option<AccountName>)
    ensures Effect(xs + ys, a) == Effect(xs, a) + Effect(ys, a)
  {
    if xs == [] {
      assert xs + ys == ys;
    } else {
      assert (xs + ys)[1..] == xs[1..] + ys;
      EffectAppend(xs[1..], ys, a);
    }
  }

  lemma {:induction false} RemoveFirstEffect(s: Side, sides: seq<Side>, a: Option<AccountName>)
    requires s in sides
    ensures Effect(sides, a) == Amount(s, a) + Effect(RemoveFirst(s, sides), a)
  {
    if sides[0] != s {
      RemoveFirstEffect(s, sides[1..], a);
      assert ([sides[0]] + RemoveFirst(s, sides[1..]))[1..] == RemoveFirst(s, sides[1..]);
    }
  }

  /** The effect does not depend on the order of the rows. */
  lemma {:induction false} EffectOfPermutation(xs: seq<Side>, ys: seq<Side>, a: Option<AccountName>)
    requires multiset(xs) == multiset(ys)
    ensures Effect(xs, a) == Effect(ys, a)
    decreases |xs|
  {
    if xs == [] {
      assert |multiset(ys)| == 0;
    } else {
      assert xs[0] in multiset(ys);
      RemoveFirstIsMinus(xs[0], ys);
      RemoveFirstEffect(xs[0], ys, a);
      assert multiset(xs) == multiset(xs[1..]) + multiset{xs[0]} by {
        assert xs == [xs[0]] + xs[1..];
      }
      assert multiset(xs[1..]) == multiset(xs) - multiset{xs[0]};
      EffectOfPermutation(xs[1..], RemoveFirst(xs[0], ys), a);
    }
  }

  lemma {:induction false} FlippedEffect(lines: seq<Line>, a: Option<AccountName>)
    ensures Effect(FlippedSides(lines), a) == -Effect(Sides(lines), a)
  {
    if lines != [] {
      assert FlippedSides(lines)[1..] == FlippedSides(lines[1..]);
      assert Sides(lines)[1..] == Sides(lines[1..]);
      FlippedEffect(lines[1..], a);
    }
  }

  /** A reversal that passes the test undoes its original on every account. */
  lemma ReversalNetsToZero(original: seq<Line>, reversal: seq<Line>, a: Option<AccountName>)
    requires IsMirror(original, reversal)
    ensures Effect(Sides(original), a) + Effect(Sides(reversal), a) == 0
  {
    EffectOfPermutation(FlippedSides(original), Sides(reversal), a);
    FlippedEffect(original, a);
  }

  /** Reversing the reversal restores the original effect, and is a permutation of the original rows. */
  lemma ReversalOfReversal(original: seq<Line>, reversal: seq<Line>, again: seq<Line>, a: Option<AccountName>)
    requires IsMirror(original, reversal) && IsMirror(reversal, again)
    ensures Effect(Sides(again), a) == Effect(Sides(original), a)
    ensures multiset(Sides(again)) == multiset(Sides(original))
  {
    ReversalNetsToZero(original, reversal, a);
    ReversalNetsToZero(reversal, again, a);
    forall s: Side
      ensures multiset(Sides(again))[s] == multiset(Sides(original))[s]
    {
      var f := s.(direction := Flip(s.direction));
      FlippedCount(reversal, f);
      FlippedCount(original, s);
      assert multiset(FlippedSides(reversal))[s] == multiset(Sides(reversal))[f];
      assert multiset(FlippedSides(original))[f] == multiset(Sides(original))[s];
    }
  }

  lemma {:induction false} FlippedCount(lines: seq<Line>, s: Side)
    ensures multiset(FlippedSides(lines))[s.(direction := Flip(s.direction))] == multiset(Sides(lines))[s]
  {
    if lines != [] {
      FlippedCount(lines[1..], s);
      assert FlippedSides(lines) == [FlippedSides(lines)[0]] + FlippedSides(lines[1..]);
      assert Sides(lines) == [Sides(lines)[0]] + Sides(lines[1..]);
    }
  }

  /** What an entry does to an account, read from the postings table. */
  lemma {:induction false} EntryEffect(postings: seq<PostingRow>, e: nat, a: AccountName)
    ensures Net(postings, OfEntries({e}, a)) == Effect(Sides(LinesOf(postings, e)), Some(a))
  {
    if postings != [] {
      var init, last := postings[..|postings| - 1], postings[|postings| - 1];
      EntryEffect(init, e, a);
      if last.entry == e {
        var s := Side(last.line.account, last.line.direction, last.line.amount);
        assert Sides(LinesOf(postings, e)) == Sides(LinesOf(init, e)) + [s];
        EffectAppend(Sides(LinesOf(init, e)), [s], Some(a));
        assert [s][1..] == [];
        assert Effect([s], Some(a)) == Amount(s, Some(a));
      } else {
        assert LinesOf(postings, e) == LinesOf(init, e);
      }
    }
  }

  /** In the committed tables: a reversing entry that passed its check nets its original to zero. */
  lemma CommittedReversalNetsToZero(book: Book, e: nat, a: AccountName)
    requires e < |book.entries| && book.entries[e].reverses.Some? && AssertEntryValid(book, e).Pass?
    ensures Net(book.postings, OfEntries({e}, a)) + Net(book.postings, OfEntries({book.entries[e].reverses.value}, a)) == 0
  {
    var r := book.entries[e].reverses.value;
    var original, reversal := LinesOf(book.postings, r), LinesOf(book.postings, e);
    EntryEffect(book.postings, e, a);
    EntryEffect(book.postings, r, a);
    MirrorTestIsExact(original, reversal);
    ReversalNetsToZero(original, reversal, Some(a));
  }

  // ---------------------------------------------------------------------------------------------
  // What the commit-time check accepts
  // ---------------------------------------------------------------------------------------------

  lemma {:induction false} EffectOfAll(lines: seq<Line>)
    ensures Effect(Sides(lines), None) == DirectionTotal(lines, Debit) - DirectionTotal(lines, Credit)
  {
    if lines != [] {
      var init, last := lines[..|lines| - 1], lines[|lines| - 1];
      var s := Side(last.account, last.direction, last.amount);
      EffectOfAll(init);
      assert Sides(lines) == Sides(init) + [s];
      EffectAppend(Sides(init), [s], None);
      assert [s][1..] == [] && Effect([s], None) == Amount(s, None);
    }
  }

  lemma {:induction false} OneCurrencyIff(lines: seq<Line>)
    requires lines != []
    ensures |set line | line in lines :: line.currency| == 1 <==>
              forall j, k :: 0 <= j < k < |lines| ==> lines[j].currency == lines[k].currency
  {
    if forall j, k :: 0 <= j < k < |lines| ==> lines[j].currency == lines[k].currency {
      SameCurrency(lines, lines[0].currency);
    } else if |set line | line in lines :: line.currency| == 1 {
      var c := OneCurrency(lines);
      assert forall k :: 0 <= k < |lines| ==> lines[k] in lines;
    }
  }

  /** The check accepts an entry if and only if it has at least two lines, in one currency, with equal sums on both sides,
      and mirrors the entry it reverses, if any. */
  lemma EntryIsValidIff(lines: seq<Line>, original: Option<seq<Line>>)
    ensures CheckEntry(lines, original).Pass? <==>
              && |lines| >= 2
              && (forall j, k :: 0 <= j < k < |lines| ==> lines[j].currency == lines[k].currency)
              && DirectionTotal(lines, Debit) == DirectionTotal(lines, Credit)
              && (original.Some? ==> IsMirror(original.value, lines))
  {
    if |lines| >= 2 {
      OneCurrencyIff(lines);
    }
    if original.Some? {
      MirrorTestIsExact(original.value, lines);
    }
  }

  /** A mirror of a valid entry is itself valid, once its lines are in one currency. */
  lemma MirrorOfValidIsValid(original: seq<Line>, first: Option<seq<Line>>, reversal: seq<Line>)
    requires CheckEntry(original, first).Pass? && IsMirror(original, reversal)
    requires forall j, k :: 0 <= j < k < |reversal| ==> reversal[j].currency == reversal[k].currency
    ensures CheckEntry(reversal, Some(original)).Pass?
  {
    EntryIsValidIff(original, first);
    EntryIsValidIff(reversal, Some(original));
    assert |multiset(FlippedSides(original))| == |original| && |multiset(Sides(reversal))| == |reversal|;
    ReversalNetsToZero(original, reversal, None);
    EffectOfAll(original);
    EffectOfAll(reversal);
  }
}
