/** The commission: 1.5 % of the amount, rounded down. */
module Commission {

  /** bigint division truncates toward zero. */
  function TruncatedDivision(a: int, b: int): int
    requires b > 0
  {
    if a >= 0 then a / b else -(-a / b)
  }

  function ComputeCommission(amount: int): int {
    TruncatedDivision(amount * 15, 1000)
  }

  /** The merchant never loses more than the nominal rate, and the platform gives up less than one unit. */
  lemma CommissionBounds(amount: int)
    requires amount > 0
    ensures 0 <= ComputeCommission(amount) < amount
    ensures 1000 * ComputeCommission(amount) <= 15 * amount < 1000 * (ComputeCommission(amount) + 1)
    ensures ComputeCommission(amount) == 0 <==> amount < 67
  {
  }

  function SumOfAmounts(parts: seq<int>): int {
    if parts == [] then 0 else parts[0] + SumOfAmounts(parts[1..])
  }

  function SumOfCommissions(parts: seq<int>): int {
    if parts == [] then 0 else ComputeCommission(parts[0]) + SumOfCommissions(parts[1..])
  }

  /** Splitting an amount over several payments never raises the total commission, and lowers it by less
      than the number of parts. */
  lemma {:induction false} SplittingAPayment(parts: seq<int>)
    requires parts != [] && forall k :: 0 <= k < |parts| ==> parts[k] > 0
    ensures SumOfCommissions(parts) <= ComputeCommission(SumOfAmounts(parts)) < SumOfCommissions(parts) + |parts|
    ensures SumOfAmounts(parts) > 0
  {
    CommissionBounds(parts[0]);
    if |parts| > 1 {
      SplittingAPayment(parts[1..]);
      CommissionBounds(SumOfAmounts(parts[1..]));
      CommissionBounds(SumOfAmounts(parts));
    } else {
      assert SumOfAmounts(parts[1..]) == 0 && SumOfCommissions(parts[1..]) == 0;
    }
  }
}
