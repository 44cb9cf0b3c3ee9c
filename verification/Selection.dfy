/** The query of the sweep: overdue rows in order of expiry, at most 200, skipping locked ones. */
module Selection {
  import opened Rows
  import opened Database

  const EXPIRATION_BATCH_SIZE: nat := 200

  predicate Eligible(txns: seq<Txn>, now: int, skip: set<nat>, r: nat) {
    r < |txns| && Overdue(txns[r], now) && r !in skip
  }

  /** What `SELECT ... ORDER BY expires_at LIMIT 200 FOR UPDATE SKIP LOCKED` may return; rows that expire at the same
      instant may come in any order. */
  ghost predicate IsBatch(txns: seq<Txn>, now: int, skip: set<nat>, batch: seq<nat>) {
    && Distinct(batch)
    && (forall k :: 0 <= k < |batch| ==> Eligible(txns, now, skip, batch[k]))
    && |batch| <= EXPIRATION_BATCH_SIZE
    && (forall r: nat :: Eligible(txns, now, skip, r) && r !in batch ==>
          && |batch| == EXPIRATION_BATCH_SIZE
          && forall k :: 0 <= k < |batch| ==> txns[batch[k]].expiresAt.value <= txns[r].expiresAt.value)
  }

  function InsertByExpiry(txns: seq<Txn>, r: nat, list: seq<nat>): seq<nat>
    requires r < |txns| && txns[r].expiresAt.Some?
    requires forall k :: 0 <= k < |list| ==> list[k] < |txns| && txns[list[k]].expiresAt.Some?
  {
    if list == [] then [r]
    else if txns[r].expiresAt.value < txns[list[0]].expiresAt.value then [r] + list
    else [list[0]] + InsertByExpiry(txns, r, list[1..])
  }

  /** The eligible rows among the first n, in order of expiry. */
  function Ordered(txns: seq<Txn>, now: int, skip: set<nat>, n: nat): (list: seq<nat>)
    requires n <= |txns|
    ensures forall k :: 0 <= k < |list| ==> list[k] < n && Eligible(txns, now, skip, list[k])
  {
    if n == 0 then []
    else
      var rest := Ordered(txns, now, skip, n - 1);
      if Eligible(txns, now, skip, n - 1) then
        InsertedElements(txns, n - 1, rest);
        InsertByExpiry(txns, n - 1, rest)
      else rest
  }

  ghost predicate ByExpiry(txns: seq<Txn>, list: seq<nat>) {
    && (forall k :: 0 <= k < |list| ==> list[k] < |txns| && txns[list[k]].expiresAt.Some?)
    && forall j, k :: 0 <= j < k < |list| ==> txns[list[j]].expiresAt.value <= txns[list[k]].expiresAt.value
  }

  lemma {:induction false} InsertedElements(txns: seq<Txn>, r: nat, list: seq<nat>)
    requires r < |txns| && txns[r].expiresAt.Some?
    requires forall k :: 0 <= k < |list| ==> list[k] < |txns| && txns[list[k]].expiresAt.Some?
    ensures var list' := InsertByExpiry(txns, r, list);
            && |list'| == |list| + 1
            && (forall x :: x in list' <==> x in list || x == r)
            && forall k :: 0 <= k < |list'| ==> list'[k] in list || list'[k] == r
  {
    if list != [] && txns[r].expiresAt.value >= txns[list[0]].expiresAt.value {
      InsertedElements(txns, r, list[1..]);
      assert list == [list[0]] + list[1..];
    }
  }

  lemma Cons(txns: seq<Txn>, x: nat, rest: seq<nat>)
    requires ByExpiry(txns, rest) && Distinct(rest) && x < |txns| && txns[x].expiresAt.Some?
    requires forall k :: 0 <= k < |rest| ==> rest[k] != x && txns[x].expiresAt.value <= txns[rest[k]].expiresAt.value
    ensures ByExpiry(txns, [x] + rest) && Distinct([x] + rest)
  {
  }

  lemma {:induction false} InsertedOrder(txns: seq<Txn>, r: nat, list: seq<nat>)
    requires r < |txns| && txns[r].expiresAt.Some? && ByExpiry(txns, list) && Distinct(list) && r !in list
    ensures ByExpiry(txns, InsertByExpiry(txns, r, list)) && Distinct(InsertByExpiry(txns, r, list))
  {
    if list == [] {
    } else if txns[r].expiresAt.value < txns[list[0]].expiresAt.value {
      Cons(txns, r, list);
    } else {
      assert list[0] in list && forall k :: 0 <= k < |list[1..]| ==> list[1..][k] == list[k + 1];
      InsertedElements(txns, r, list[1..]);
      InsertedOrder(txns, r, list[1..]);
      Cons(txns, list[0], InsertByExpiry(txns, r, list[1..]));
    }
  }

  lemma {:induction false} OrderedIsSorted(txns: seq<Txn>, now: int, skip: set<nat>, n: nat)
    requires n <= |txns|
    ensures ByExpiry(txns, Ordered(txns, now, skip, n)) && Distinct(Ordered(txns, now, skip, n))
  {
    if n > 0 {
      var rest := Ordered(txns, now, skip, n - 1);
      OrderedIsSorted(txns, now, skip, n - 1);
      if Eligible(txns, now, skip, n - 1) {
        InsertedOrder(txns, n - 1, rest);
      }
    }
  }

  lemma {:induction false} OrderedIsComplete(txns: seq<Txn>, now: int, skip: set<nat>, n: nat, r: nat)
    requires n <= |txns|
    ensures r in Ordered(txns, now, skip, n) <==> r < n && Eligible(txns, now, skip, r)
  {
    if n > 0 {
      var rest := Ordered(txns, now, skip, n - 1);
      OrderedIsComplete(txns, now, skip, n - 1, r);
      if Eligible(txns, now, skip, n - 1) {
        InsertedElements(txns, n - 1, rest);
      }
    }
  }

  function Limit(list: seq<nat>): seq<nat> {
    if |list| <= EXPIRATION_BATCH_SIZE then list else list[..EXPIRATION_BATCH_SIZE]
  }

  function Select(txns: seq<Txn>, now: int, skip: set<nat>): seq<nat> {
    Limit(Ordered(txns, now, skip, |txns|))
  }

  /** Whatever the limit cuts off expires no earlier than what it keeps. */
  lemma LimitCutsTheLatest(txns: seq<Txn>, list: seq<nat>, r: nat)
    requires ByExpiry(txns, list) && r in list && r !in Limit(list)
    ensures |Limit(list)| == EXPIRATION_BATCH_SIZE
    ensures forall k :: 0 <= k < |Limit(list)| ==> txns[Limit(list)[k]].expiresAt.value <= txns[r].expiresAt.value
  {
  }

  lemma SelectIsABatch(txns: seq<Txn>, now: int, skip: set<nat>)
    ensures IsBatch(txns, now, skip, Select(txns, now, skip))
  {
    var list, batch := Ordered(txns, now, skip, |txns|), Select(txns, now, skip);
    OrderedIsSorted(txns, now, skip, |txns|);
    assert forall k :: 0 <= k < |batch| ==> batch[k] == list[k];
    forall r: nat | Eligible(txns, now, skip, r) && r !in batch
      ensures |batch| == EXPIRATION_BATCH_SIZE
      ensures forall k :: 0 <= k < |batch| ==> txns[batch[k]].expiresAt.value <= txns[r].expiresAt.value
    {
      OrderedIsComplete(txns, now, skip, |txns|, r);
      LimitCutsTheLatest(txns, list, r);
    }
  }
}
