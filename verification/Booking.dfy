/** The lines the three booking functions post, and the row each one updates. */
module Booking {
  import opened Prelude
  import opened Chart
  import opened Journal
  import opened Rows
  import opened Commission

  /** Payment confirmed: debit the operator, credit the merchant, credit the fees when there are any. */
  function PaymentLines(t: Txn): seq<Line> {
    var commission := ComputeCommission(t.amount);
    [Line(Clearing(t.provider), Debit, t.amount, t.currency),
     Line(Payable(t.merchant), Credit, t.amount - commission, t.currency)]
    + if commission > 0 then [Line(Fees, Credit, commission, t.currency)] else []
  }

  /** Money going back: debit the merchant, credit the operator. */
  function TakeBackLines(t: Txn, amount: int): seq<Line> {
    [Line(Payable(t.merchant), Debit, amount, t.currency),
     Line(Clearing(t.provider), Credit, amount, t.currency)]
  }

  /** The parent row a confirmed refund asks for. */
  function ParentAfterRefund(refund: Txn, parent: Txn): Result<Txn> {
    var refunded := parent.refunded + refund.amount;
    :- Need(refunded <= parent.amount, ExceedsRefundable);
    UpdateRow(parent, parent.(refunded := refunded,
                              status := if refunded == parent.amount then Refunded else PartiallyRefunded))
  }

  /** The row after a lost dispute: everything that was left counts as refunded. */
  function RowAfterReversal(t: Txn): Result<Txn> {
    if t.amount - t.refunded <= 0 then Err(NothingToTakeBack) else UpdateRow(t, t.(refunded := t.amount))
  }

  /** Looking up the merchant and the accounts, then inserting the lines. */
  function Accept(merchants: set<string>, accounts: Accounts, t: Txn, lines: seq<Line>): Result<seq<Line>> {
    if t.merchant !in merchants then Err(NotFound)
    else if exists k :: 0 <= k < |lines| && lines[k].account !in accounts then Err(MissingAccount)
    else match CheckLines(accounts, lines)
      case Fail(e) => Err(e)
      case Pass => Ok(lines)
  }

  // ---------------------------------------------------------------------------------------------

  /** What commits one SQL transaction: rows rewritten in order, at most one entry, at most one exception. */
  datatype Write = Write(row: nat, before: Txn, after: Txn)
  datatype EntryDraft = EntryDraft(transaction: nat, lines: seq<Line>)
  datatype LateAck = LateAck(txn: nat, providerReference: Option<string>)
  datatype Work = Work(writes: seq<Write>, entry: Option<EntryDraft>, late: Option<LateAck>, returned: Txn)

  predicate ConfirmsRefund(row: Txn, target: Status) {
    target == Succeeded && row.status == Pending && row.kind == Refund
  }

  predicate IsLateAck(row: Txn, target: Status) {
    row.status == Expired && target == Succeeded
  }

  /** The part of `transition` that needs no other row than the locked one. */
  function PlanAlone(merchants: set<string>, accounts: Accounts, i: nat, row: Txn, target: Status,
                     providerReference: Option<string>): Result<Work>
    requires !ConfirmsRefund(row, target)
  {
    if IsLateAck(row, target) then
      Ok(Work([], None, Some(LateAck(i, providerReference)), row))
    else
      var updated :- UpdateRow(row, row.(status := target));
      if target == Succeeded && row.status == Pending then
        var lines :- Accept(merchants, accounts, updated, PaymentLines(updated));
        Ok(Work([Write(i, row, updated)], Some(EntryDraft(i, lines)), None, updated))
      else if target == Reversed && row.status == Disputed then
        var final :- RowAfterReversal(updated);
        var lines :- Accept(merchants, accounts, updated, TakeBackLines(updated, updated.amount - updated.refunded));
        Ok(Work([Write(i, row, updated), Write(i, updated, final)], Some(EntryDraft(i, lines)), None, final))
      else
        Ok(Work([Write(i, row, updated)], None, None, updated))
  }

  /** The rest of a refund confirmation, once the refund is written and its parent is locked. */
  function PlanRefund(merchants: set<string>, accounts: Accounts, i: nat, row: Txn, updated: Txn, p: nat, parent: Txn): Result<Work> {
    var parent' :- ParentAfterRefund(updated, parent);
    var lines :- Accept(merchants, accounts, updated, TakeBackLines(updated, updated.amount));
    Ok(Work([Write(i, row, updated), Write(p, parent, parent')], Some(EntryDraft(i, lines)), None, updated))
  }
}
