/** MerchantsService: a merchant and its payable account, in one SQL transaction. */
module Merchants {
  import opened Prelude
  import opened Chart
  import opened Database
  import opened Runs
  import opened Service

  /** A merchant is created if and only if its code is new, at most 50 characters long and made of words separated by
      single colons; the request validator, which allows one word only, asks for more than the tables do. */
  lemma MerchantIsCreatedIff(db: Db, code: string)
    ensures AddMerchant(db, code).1 == MerchantCreated <==>
              |code| <= 50 && Words(code) && code !in db.merchants && Payable(code) !in db.accounts
    ensures AddMerchant(db, code).1 != MerchantCreated ==> AddMerchant(db, code).0 == db
  {
    PayableCodeFormat(code);
    FormatIsWords(code);
  }

  /** The CHECK on account codes, as its regular expression reads: no colon first, last or next to another. */
  ghost predicate Words(code: string) {
    && |code| > 0 && code[0] != ':' && code[|code| - 1] != ':'
    && (forall k :: 0 <= k < |code| ==> 'a' <= code[k] <= 'z' || '0' <= code[k] <= '9' || code[k] == '_' || code[k] == ':')
    && !exists k :: 0 <= k < |code| - 1 && code[k] == ':' && code[k + 1] == ':'
  }

  lemma FormatIsWords(code: string)
    ensures CodeFormat(code) <==> Words(code)
  {
    if CodeFormat(code) {
      assert FormatAt(code, 0) && FormatAt(code, |code| - 1);
      forall k: nat | k < |code|
        ensures 'a' <= code[k] <= 'z' || '0' <= code[k] <= '9' || code[k] == '_' || code[k] == ':'
        ensures k < |code| - 1 ==> !(code[k] == ':' && code[k + 1] == ':')
      {
        assert FormatAt(code, k);
      }
    } else if Words(code) {
      forall k: nat | k < |code|
        ensures FormatAt(code, k)
      {
        assert 0 < k ==> !(code[k - 1] == ':' && code[(k - 1) + 1] == ':');
      }
    }
  }

  /** The outcome, field by field: the merchant with an active XOF liability account, or a refusal that changes nothing. */
  ghost predicate MerchantOutcome(before: Db, after: Db, code: string, reply: Reply) {
    if |code| > 50 then reply == Rejected(TooLong) && after == before
    else if code in before.merchants then reply == Rejected(Duplicate) && after == before
    else if !Words(code) then reply == Rejected(CheckViolation) && after == before
    else if Payable(code) in before.accounts then reply == Rejected(Duplicate) && after == before
    else
      && reply == MerchantCreated
      && (forall m :: m in after.merchants <==> m in before.merchants || m == code)
      && (forall a :: a in after.accounts <==> a in before.accounts || a == Payable(code))
      && (forall a :: a in before.accounts ==> after.accounts[a] == before.accounts[a])
      && after.accounts[Payable(code)] == Account(Liability, "XOF", true)
      && after == before.(merchants := after.merchants, accounts := after.accounts)
  }

  lemma MerchantOutcomeHolds(db: Db, code: string)
    ensures var (db', reply) := AddMerchant(db, code); MerchantOutcome(db, db', code, reply)
  {
    PayableCodeFormat(code);
    FormatIsWords(code);
  }

  method CreateMerchant(ledger: Ledger, code: string) returns (reply: Reply)
    requires Reachable(ledger.State())
    modifies ledger
    ensures (ledger.State(), reply) == AddMerchant(old(ledger.State()), code)
    ensures MerchantOutcome(old(ledger.State()), ledger.State(), code, reply)
    ensures Reachable(ledger.State())
  {
    MerchantOutcomeHolds(ledger.State(), code);
    StepKeepsReachable(ledger.State(), MerchantEvent(code));
    var saved := ledger.State();
    if |code| > MAX_MERCHANT_CODE {
      return Rejected(TooLong);
    }
    if code in ledger.merchants {
      return Rejected(Duplicate);
    }
    ledger.merchants := ledger.merchants + {code};
    if !CodeFormat(CodeOf(Payable(code))) {
      ledger.Restore(saved);
      return Rejected(CheckViolation);
    }
    if Payable(code) in ledger.accounts {
      ledger.Restore(saved);
      return Rejected(Duplicate);
    }
    ledger.accounts := ledger.accounts[Payable(code) := Account(Liability, DEFAULT_CURRENCY, true)];
    return MerchantCreated;
  }
}
