/** One row of the transactions table: its CHECKs, its triggers and its state machine. */
module Rows {
  import opened Prelude
  import opened Chart

  datatype Status =
    | Initiated | Pending | Succeeded | Failed | Expired
    | PartiallyRefunded | Refunded | Disputed | Reversed

  datatype Kind = Payment | Refund

  /** Row numbers stand for the ids that foreign keys hold; `uuid` only breaks ties when listing.
      A merchant's unique, frozen code stands for its id. */
  datatype Txn = Txn(
    uuid: nat,
    reference: string,
    kind: Kind,
    status: Status,
    provider: Provider,
    amount: int,
    currency: string,
    refunded: int,
    parent: Option<nat>,
    merchant: string,
    key: string,
    fingerprint: string,
    version: int,
    expiresAt: Option<int>,
    createdAt: int)

  const MAX_BIGINT: int := 0x7FFF_FFFF_FFFF_FFFF
  const MAX_INTEGER: int := 0x7FFF_FFFF

  /** transaction_status_transitions. */
  predicate Edge(from: Status, to: Status) {
    match from
    case Initiated => to in {Pending, Failed}
    case Pending => to in {Succeeded, Failed, Expired}
    case Succeeded => to in {PartiallyRefunded, Refunded, Disputed}
    case PartiallyRefunded => to in {Refunded, Disputed}
    case Disputed => to in {Succeeded, PartiallyRefunded, Reversed}
    case _ => false
  }

  predicate BeforeMoney(s: Status) {
    s in {Initiated, Pending, Failed, Expired}
  }

  predicate Terminal(s: Status) {
    s in {Failed, Expired, Refunded, Reversed}
  }

  /** Money has moved: the payment or refund was confirmed at some point. */
  predicate Booked(s: Status) {
    !BeforeMoney(s)
  }

  predicate IsoCurrency(c: string) {
    |c| == 3 && forall k :: 0 <= k < 3 ==> 'A' <= c[k] <= 'Z'
  }

  /** The CHECK constraints of the table, and the width of its amount column. */
  predicate ChecksHold(t: Txn) {
    && 0 < t.amount <= MAX_BIGINT
    && IsoCurrency(t.currency)
    && 0 <= t.refunded <= t.amount
    && (t.kind == Refund <==> t.parent.Some?)
    && (t.kind == Payment || (t.refunded == 0 && t.status in {Initiated, Pending, Succeeded, Failed, Expired}))
    && (t.status in {Initiated, Pending, Succeeded, Failed, Expired} ==> t.refunded == 0)
    && (t.status == PartiallyRefunded ==> 0 < t.refunded < t.amount)
    && (t.status == Refunded ==> t.refunded == t.amount)
    && (t.expiresAt.Some? ==> t.expiresAt.value > t.createdAt)
  }

  predicate SameFrozenFields(old_: Txn, new_: Txn) {
    new_ == old_.(status := new_.status, refunded := new_.refunded, version := new_.version)
  }

  /** fn_transactions_before_update. The version column is a 32-bit integer. */
  function BeforeUpdate(old_: Txn, proposed: Txn): Result<Txn> {
    if !SameFrozenFields(old_, proposed) then Err(FrozenField)
    else if proposed.refunded < old_.refunded then Err(BusinessRule)
    else if proposed.status != old_.status && !Edge(old_.status, proposed.status) then Err(ForbiddenTransition)
    else if old_.version >= MAX_INTEGER then Err(OutOfRange)
    else Ok(proposed.(version := old_.version + 1))
  }

  /** One UPDATE of one row: the BEFORE trigger, then the CHECKs. */
  function UpdateRow(old_: Txn, proposed: Txn): Result<Txn> {
    var row :- BeforeUpdate(old_, proposed);
    :- Need(ChecksHold(row), CheckViolation);
    Ok(row)
  }

  /** fn_transactions_before_insert. `seen` is the parent row its SELECT returned; comparing with NULL
      raises nothing, so a missing parent is left to the foreign key. */
  function BeforeInsert(proposed: Txn, seen: Option<Txn>, now: int): Result<Txn> {
    if proposed.status != Initiated then Err(ForbiddenTransition)
    else if proposed.kind == Refund && seen.Some? && !RefundAllowed(proposed, seen.value) then Err(BusinessRule)
    else Ok(proposed.(version := 1, refunded := 0, createdAt := now))
  }

  predicate RefundAllowed(refund: Txn, parent: Txn) {
    && parent.kind == Payment
    && parent.status in {Succeeded, PartiallyRefunded}
    && parent.currency == refund.currency
    && parent.provider == refund.provider
    && refund.amount <= parent.amount - parent.refunded
  }

  // ---------------------------------------------------------------------------------------------
  // How a row may evolve over any number of updates
  // ---------------------------------------------------------------------------------------------

  /** `later` may be a committed value of the row whose committed value once was `earlier`. */
  predicate RowEvolves(earlier: Txn, later: Txn) {
    && SameFrozenFields(earlier, later)
    && earlier.version <= later.version
    && (earlier.version == later.version ==> earlier == later)
    && earlier.refunded <= later.refunded
    && (Booked(earlier.status) ==> Booked(later.status))
    && (Terminal(earlier.status) ==> later.status == earlier.status)
    && (earlier.status != Initiated ==> later.status != Initiated)
  }

  lemma RowEvolvesIsTransitive(a: Txn, b: Txn, c: Txn)
    requires RowEvolves(a, b) && RowEvolves(b, c)
    ensures RowEvolves(a, c)
  {
  }

  /** The trigger lets through only evolutions, and every update raises the version by exactly one. */
  lemma UpdateIsAnEvolution(old_: Txn, proposed: Txn)
    requires UpdateRow(old_, proposed).Ok?
    ensures RowEvolves(old_, UpdateRow(old_, proposed).value)
    ensures UpdateRow(old_, proposed).value.version == old_.version + 1
    ensures var t := UpdateRow(old_, proposed).value;
            && t.uuid == old_.uuid && t.reference == old_.reference && t.kind == old_.kind && t.provider == old_.provider
            && t.amount == old_.amount && t.currency == old_.currency && t.parent == old_.parent && t.merchant == old_.merchant
            && t.key == old_.key && t.fingerprint == old_.fingerprint && t.expiresAt == old_.expiresAt
            && t.createdAt == old_.createdAt && t.refunded >= old_.refunded
  {
  }
}
