/** Sums over the transactions table: the closed forms the ledger is compared with. */
module Totals {
  import opened Prelude
  import opened Chart
  import opened Rows
  import opened Commission

  datatype Measure =
    | Share(account: AccountName)   // what a payment contributes to the debit-minus-credit of an account
    | RefundsOf(payment: nat)       // confirmed refunds of one payment
    | Gross                         // amounts of booked payments
    | CommissionTaken               // commissions of booked payments
    | BookedPayments
    | CommissionFrom(merchant: string)   // commissions taken from one merchant
    | PayableShare(creditor: string)     // what one merchant is owed, commissions added back

  function Weigh(m: Measure, t: Txn): int {
    match m
    case Share(a) =>
      if t.kind == Payment && Booked(t.status) then
        match a
        case Clearing(p) => if p == t.provider then t.amount - t.refunded else 0
        case Payable(code) => if code == t.merchant then -(t.amount - ComputeCommission(t.amount) - t.refunded) else 0
        case Fees => -ComputeCommission(t.amount)
      else 0
    case RefundsOf(p) => if t.kind == Refund && t.status == Succeeded && t.parent == Some(p) then t.amount else 0
    case Gross => if t.kind == Payment && Booked(t.status) then t.amount else 0
    case CommissionTaken => if t.kind == Payment && Booked(t.status) then ComputeCommission(t.amount) else 0
    case CommissionFrom(m) =>
      if t.kind == Payment && Booked(t.status) && t.merchant == m then ComputeCommission(t.amount) else 0
    case PayableShare(m) =>
      if t.kind == Payment && Booked(t.status) && t.merchant == m then t.amount - t.refunded else 0
    case BookedPayments => if t.kind == Payment && Booked(t.status) then 1 else 0
  }

  function Total(m: Measure, txns: seq<Txn>): int {
    if txns == [] then 0 else Total(m, txns[..|txns| - 1]) + Weigh(m, txns[|txns| - 1])
  }

  lemma TotalAppend(m: Measure, txns: seq<Txn>, t: Txn)
    ensures Total(m, txns + [t]) == Total(m, txns) + Weigh(m, t)
  {
  }

  lemma {:induction false} TotalUpdate(m: Measure, txns: seq<Txn>, i: nat, t: Txn)
    requires i < |txns|
    ensures Total(m, txns[i := t]) == Total(m, txns) - Weigh(m, txns[i]) + Weigh(m, t)
  {
    var last := |txns| - 1;
    if i == last {
      assert txns[i := t][..last] == txns[..last];
    } else {
      assert txns[i := t][..last] == txns[..last][i := t];
      TotalUpdate(m, txns[..last], i, t);
    }
  }

  /** A sum of rows none of which is negative is not negative. */
  lemma {:induction false} TotalIsNatural(m: Measure, txns: seq<Txn>)
    requires forall k :: 0 <= k < |txns| ==> Weigh(m, txns[k]) >= 0
    ensures Total(m, txns) >= 0
  {
    if txns != [] {
      TotalIsNatural(m, txns[..|txns| - 1]);
    }
  }

  lemma {:induction false} PayableSplits(txns: seq<Txn>, m: string)
    ensures -Total(Share(Payable(m)), txns) == Total(PayableShare(m), txns) - Total(CommissionFrom(m), txns)
  {
    if txns != [] {
      PayableSplits(txns[..|txns| - 1], m);
    }
  }

  /** Per-row commission bounds add up. */
  lemma {:induction false} CommissionTotals(txns: seq<Txn>)
    requires forall k :: 0 <= k < |txns| ==> txns[k].amount > 0
    ensures var f, g, n := Total(CommissionTaken, txns), Total(Gross, txns), Total(BookedPayments, txns);
            && 0 <= f && 0 <= n && 1000 * f <= 15 * g <= 1000 * f + 999 * n
            && Total(Share(Fees), txns) == -f
  {
    if txns != [] {
      CommissionBounds(txns[|txns| - 1].amount);
      CommissionTotals(txns[..|txns| - 1]);
    }
  }
}
