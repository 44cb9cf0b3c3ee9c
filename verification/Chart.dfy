/** The chart of accounts: which accounts exist and how their codes are built. */
module Chart {
  datatype Provider = OrangeMoney | MtnMomo | Wave | MoovMoney

  datatype AccountType = Asset | Liability | Equity | Revenue | Expense

  /** The accounts the booking functions look up, by what they stand for. */
  datatype AccountName = Clearing(provider: Provider) | Payable(merchant: string) | Fees

  datatype Account = Account(kind: AccountType, currency: string, active: bool)

  type Accounts = map<AccountName, Account>

  const DEFAULT_CURRENCY := "XOF"

  function ProviderSlug(p: Provider): string {
    match p
    case OrangeMoney => "orange_money"
    case MtnMomo => "mtn_momo"
    case Wave => "wave"
    case MoovMoney => "moov_money"
  }

  /** The `code` column of ledger_accounts for an account. */
  function CodeOf(a: AccountName): string {
    match a
    case Clearing(p) => "provider:" + ProviderSlug(p) + ":clearing"
    case Payable(m) => "merchant:" + m + ":payable"
    case Fees => "revenue:fees"
  }

  predicate CodeCharacter(c: char) {
    'a' <= c <= 'z' || '0' <= c <= '9' || c == '_'
  }

  /** A colon stands only between two other characters. */
  predicate FormatAt(code: string, k: nat)
    requires k < |code|
  {
    CodeCharacter(code[k]) || (code[k] == ':' && 0 < k < |code| - 1 && code[k - 1] != ':' && code[k + 1] != ':')
  }

  /** The CHECK on ledger_accounts.code: words of code characters, separated by single colons. */
  predicate CodeFormat(code: string) {
    code != [] && forall k :: 0 <= k < |code| ==> FormatAt(code, k)
  }

  lemma JoinedFormat(a: string, b: string)
    ensures CodeFormat(a + ":" + b) <==> CodeFormat(a) && CodeFormat(b)
  {
    var n, code := |a|, a + ":" + b;
    assert code[n] == ':';
    if CodeFormat(code) {
      assert FormatAt(code, n);
      forall k: nat | k < n
        ensures FormatAt(a, k)
      {
        assert FormatAt(code, k) && code[k] == a[k];
      }
      forall k: nat | k < |b|
        ensures FormatAt(b, k)
      {
        assert FormatAt(code, n + 1 + k) && code[n + 1 + k] == b[k];
      }
    } else if CodeFormat(a) && CodeFormat(b) {
      assert FormatAt(a, n - 1) && FormatAt(b, 0);
      forall k: nat | k < |code|
        ensures FormatAt(code, k)
      {
        if k < n {
          assert FormatAt(a, k);
        } else if k > n {
          assert FormatAt(b, k - n - 1);
        }
      }
    }
  }

  /** Which merchant codes the CHECK on account codes lets through: those that have its format themselves. */
  lemma PayableCodeFormat(merchant: string)
    ensures CodeFormat(CodeOf(Payable(merchant))) <==> CodeFormat(merchant)
  {
    assert CodeOf(Payable(merchant)) == "merchant" + ":" + merchant + ":" + "payable";
    JoinedFormat("merchant" + ":" + merchant, "payable");
    JoinedFormat("merchant", merchant);
    assert forall k: nat :: k < |"merchant"| ==> FormatAt("merchant", k);
    assert forall k: nat :: k < |"payable"| ==> FormatAt("payable", k);
  }

  /** Naming accounts by what they stand for loses nothing: two different accounts never share a code,
      whatever characters a merchant code holds. */
  lemma CodesAreDistinct(a: AccountName, b: AccountName)
    ensures CodeOf(a) == CodeOf(b) <==> a == b
  {
    if CodeOf(a) == CodeOf(b) {
      assert CodeOf(a)[0] == CodeOf(b)[0];
      match a {
        case Clearing(p) =>
          assert b.Clearing?;
          assert |ProviderSlug(p)| == |ProviderSlug(b.provider)|;
          assert CodeOf(a)[9] == ProviderSlug(p)[0] && CodeOf(b)[9] == ProviderSlug(b.provider)[0];
          assert CodeOf(a)[10] == ProviderSlug(p)[1] && CodeOf(b)[10] == ProviderSlug(b.provider)[1];
        case Payable(m) =>
          assert b.Payable?;
          assert m == CodeOf(a)[9..|CodeOf(a)| - 8];
          assert b.merchant == CodeOf(b)[9..|CodeOf(b)| - 8];
        case Fees =>
      }
    }
  }
}
