# Ledger and transaction lifecycle

This project models the payment back end as one stateful system: the TypeScript services that move payments and refunds
through nine statuses, and the PostgreSQL triggers, CHECKs, unique indexes and deferred constraints they rely on. The two
halves are modelled together, because the promises of the design only hold when they are combined.

How the modules build on each other:

- **Values.** `Chart`, `Journal`, `Rows`, `Commission` and `Booking` are the tables' rows and the pure parts of the code:
  the chart of accounts, postings and their commit-time check, one row of `transactions` with its triggers and CHECKs,
  the commission, the lines each booking posts.
- **Atomic specification.** `Database` holds the whole database as a value and gives each SQL transaction as a step:
  a transition is planned (`Plan`), applied and committed or rolled back; there are also sweeps, inserts and merchants.
  A run is any sequence of such steps, and a state is reachable when a run from the seeded database leads to it.
- **Imperative service.** `Service.Ledger` is a class with one field per table. Its methods run the statements of the
  source one after the other, with a rollback when one fails, and each is proved equal to the atomic specification.
  `Idempotency`, `Payments`, `Merchants`, `Simulator` and `Pagination` hold the other services' methods over it.
- **Invariant.** `Invariant`, `Preservation`, `Runs` and `Evolution` prove an inductive invariant over every run, and what
  one committed state says about every later one. `Totals`, `Balance`, `Mirror`, `Effects` and `Theorems` state what
  the design promises and derive it.
- **Concurrency.** `Concurrency` interleaves SQL transactions step by step under row locks, with private copies until
  commit; `Linearizability` proves every interleaving equal to a serial run in commit order, with the same replies;
  `Deadlock` proves the wait graph acyclic and that every client finishes.
- **Algorithms.** `Selection`, `Expiry` and `Exhaustion` cover batched expiration, `Pagination` keyset pages on fixed and on changing
  tables.

Where the code and its documentation disagree, the model follows the code:

- The comment on the version trigger (`prisma/migrations/20260922000000_init_ledger/migration.sql:442`) says that the
  application filters on the version in its WHERE clause. It does not: it compares after `SELECT ... FOR UPDATE`.
- The transition table describes DISPUTED to PARTIALLY_REFUNDED as a dispute won after earlier partial refunds
  (`prisma/migrations/20260922000000_init_ledger/migration.sql:513`). Confirming an older partial refund during a dispute takes the same
  edge and so ends the dispute (`Effects.RefundConfirmed`); confirming a full one is refused with LX005.
- `v_trial_balance_violations` is said to be empty if and only if the books balance. For arbitrary postings that is false:
  `Balance.ViewMissesALoneDebit` gives a counterexample and `Balance.ViewTellsTheTruthIff` the exact condition.
  `Balance.ViewIsEmpty` shows that entries which passed the commit-time check always meet it.
- The expiration job is meant never to be rejected by a constraint. `version` is a 32-bit column, so one overdue row at
  the largest version rolls its batch back, and asking again for the status a row has, which is accepted, brings it there
  (`Exhaustion.SweepCanBeRejected`). `Service.Ledger.ExpireOverduePending` fails exactly then.
- `history` sorts by `created_at`, which is the start time of the SQL transaction, so under lock waits the order shown
  need not be a path. The order in which rows are appended always is (`Theorems.HistoryIsAPath`).

## Model

| member | source | states |
|---|---|---|
| Chart.CodesAreDistinct | src/merchants/merchant-account.util.ts:8-10 | accounts named by what they stand for and accounts named by code are the same thing: no merchant code can collide with another account |
| Commission.CommissionBounds | src/transactions/payment-success-booking.ts:6-9 | the commission is 1.5 % rounded down: never above the nominal rate, short of it by less than one unit, zero exactly below 67 |
| Commission.SplittingAPayment | src/transactions/payment-success-booking.ts:6-9 | splitting an amount over several payments never raises the total commission and lowers it by less than the number of parts |
| Journal.CheckLinesPass | prisma/migrations/20260922000000_init_ledger/migration.sql:235-245 | the lines of an entry are all accepted if and only if each one is: existing, active account, same currency, positive amount |
| Mirror.ExceptAllIsMinus | prisma/migrations/20260922000000_init_ledger/migration.sql:313-325 | EXCEPT ALL computed row by row is subtraction of multisets |
| Mirror.MirrorTestIsExact | prisma/migrations/20260922000000_init_ledger/migration.sql:310-329 | the double EXCEPT ALL test passes if and only if the two posting multisets are direction-flipped copies |
| Mirror.ReversalNetsToZero | prisma/migrations/20260922000000_init_ledger/migration.sql:310-329 | a mirror entry undoes its original on every account |
| Mirror.ReversalOfReversal | prisma/migrations/20260922000000_init_ledger/migration.sql:310-329 | a mirror of a mirror has the original's rows and effect |
| Mirror.CommittedReversalNetsToZero | prisma/migrations/20260922000000_init_ledger/migration.sql:279-331 | in the postings table, an entry that passes the commit check and its original sum to zero on every account |
| Mirror.EntryIsValidIff | prisma/migrations/20260922000000_init_ledger/migration.sql:279-331 | the commit check accepts an entry if and only if it has two lines or more, in one currency, with equal sums on both sides, mirroring the entry it reverses, if any |
| Balance.GlobalBalance | prisma/migrations/20260922000000_init_ledger/migration.sql:279-308 | entries that are each valid make debits equal credits in every currency, and every currency in use has both sides |
| Balance.EveryTransactionKeepsTheLedgerValid | prisma/migrations/20260922000000_init_ledger/migration.sql:228-257 | whatever statements a SQL transaction tries, committed entries stay valid and sealed: no line is added, lost or changed |
| Balance.LedgerAlwaysBalances | prisma/migrations/20260922000000_init_ledger/migration.sql:352-360 | after any sequence of arbitrary SQL transactions the books balance and the trial balance view is empty |
| Acceptance.EntryCommitsIff | prisma/migrations/20260922000000_init_ledger/migration.sql:349-360 | a SQL transaction that posts one entry commits, with exactly that entry added, if and only if it reverses none or one not yet reversed, its lines are accepted and it passes the commit check |
| Acceptance.BookingCommits | src/transactions/payment-success-booking.ts:36-71 | the statements of every booking commit, and leave the journal that the service steps say |
| Acceptance.ReversalCommitsIff | prisma/migrations/20260922000000_init_ledger/migration.sql:310-329 | a reversal in one currency on open accounts commits if and only if it mirrors its original |
| Acceptance.ExactMirrorCommits | prisma/migrations/20260922000000_init_ledger/migration.sql:310-329 | the exact mirror of a committed entry not yet reversed commits on open accounts |
| Balance.ViewTellsTheTruthIff | prisma/migrations/20260922000000_init_ledger/migration.sql:540-547 | with SQL's NULL sums, the view tells whether a currency balances if and only if the currency has not just one side |
| Balance.ViewMissesALoneDebit | prisma/migrations/20260922000000_init_ledger/migration.sql:540-547 | a lone debit leaves the books unbalanced and the view empty |
| Balance.ViewIsEmpty | prisma/migrations/20260922000000_init_ledger/migration.sql:539-547 | with per-entry validity the view is empty and right to be |
| Rows.UpdateIsAnEvolution | prisma/migrations/20260927161719_transaction_merchant_id/migration.sql:33-74 | the update trigger and CHECKs let every frozen field alone, never lower the refunded amount, admit only evolutions and raise the version by one |
| Rows.RowEvolvesIsTransitive | prisma/migrations/20260927161719_transaction_merchant_id/migration.sql:33-74 | any number of such updates is again such a change |
| Invariant.InitialHolds | prisma/migrations/20260922133003_seed_chart_of_accounts/migration.sql:15-22 | the seeded chart of accounts satisfies the invariant |
| Database.SeededAccounts | prisma/migrations/20260922133003_seed_chart_of_accounts/migration.sql:15-22 | the accounts at the start: one clearing account per operator, the demo merchant's and the fees, with type, currency and activity |
| Invariant.WriteKeepsHistory | prisma/migrations/20260922000000_init_ledger/migration.sql:463-494 | every UPDATE the triggers and CHECKs let through keeps each transaction's history a path that ends at its status |
| Preservation.DraftsAreAcceptable | src/transactions/payment-success-booking.ts:33-71 | all three bookings draft positive lines, at least two, in one currency, balanced |
| Preservation.PaymentBookingKeepsInv | src/transactions/payment-success-booking.ts:17-72 | confirming a payment keeps the whole invariant |
| Preservation.RefundBookingKeepsInv | src/transactions/refund-success-booking.ts:17-97 | confirming a refund, which writes two rows and an entry, keeps the whole invariant |
| Preservation.ReversalKeepsInv | src/transactions/dispute-reversal-booking.ts:19-78 | losing a dispute, which writes one row twice and an entry, keeps the whole invariant |
| Runs.ShapedEntryIsAccepted | prisma/migrations/20260922000000_init_ledger/migration.sql:349-360 | the entry of a planned transition always passes the deferred check at commit |
| Runs.TransitionIsItsPlan | src/transactions/transactions.service.ts:95-176 | a transition whose plan succeeds is never rolled back at commit; one whose plan fails changes nothing |
| Runs.NewRowFits | prisma/migrations/20260922000000_init_ledger/migration.sql:381-391 | a refund checked against a parent row that may be out of date still fits its parent when it is inserted |
| Runs.StepKeepsInv | src/database/prisma.ts:33-62 | every SQL transaction of the service keeps the invariant |
| Runs.RunKeepsInv | src/database/prisma.ts:33-62 | the invariant holds throughout every run |
| Evolution.RunEvolves | prisma/migrations/20260922000000_init_ledger/migration.sql:184-200 | along every run rows only evolve, and journal, history and exceptions only grow |
| Evolution.VersionIsAStrongValidator | src/transactions/transactions.service.ts:88-93 | two committed observations of a transaction at the same version see the same row (sections 8.8.1 and 13.1.1 of RFC 9110) |
| Evolution.ReferenceIsStable | prisma/migrations/20260922000000_init_ledger/migration.sql:112-113 | a reference designates the same row for ever |
| Evolution.CommittedRow | src/transactions/transactions.service.ts:160-168 | the row returned is the row committed, even after the double update of a lost dispute; the version rose by one, or by two for a lost dispute |
| Evolution.AtMostOneWinnerPerVersion | src/transactions/transactions.service.ts:81-94 | at most one update ever succeeds per reference and expected version, whatever runs in between; the loser gets 412 |
| Effects.PaymentConfirmed | src/transactions/payment-success-booking.ts:11-72 | confirming a payment moves clearing by the amount, payable by the amount less commission, fees by the commission, nothing else; only its row changes |
| Effects.RefundConfirmed | src/transactions/refund-success-booking.ts:31-96 | confirming a refund moves clearing and payable back by its amount, no commission, and leaves the parent REFUNDED or PARTIALLY_REFUNDED with the cumulated amount |
| Effects.DisputeLost | src/transactions/dispute-reversal-booking.ts:23-77 | losing a dispute moves clearing and payable back by what was left, no commission, and leaves the row fully refunded two versions later |
| Effects.OtherTransitionsPostNothing | src/transactions/transactions.service.ts:142-166 | every other transition, a won dispute included, posts nothing and writes only status, version and at most one history row |
| Theorems.BalancesAreAClosedForm | prisma/migrations/20260922000000_init_ledger/migration.sql:521-537 | in every reachable state each balance equals a closed form over transactions; clearing is never negative, payable never below minus the commissions taken |
| Theorems.AggregateCommission | src/transactions/payment-success-booking.ts:6-9 | with gross G over N booked payments, the fee balance F satisfies 1000 F <= 15 G < 1000 (F + N) |
| Theorems.LedgerIsBalanced | prisma/migrations/20260922000000_init_ledger/migration.sql:539-547 | in every reachable state debits equal credits per currency and the trial balance view is empty |
| Theorems.RefundsAreConserved | src/transactions/refund-success-booking.ts:31-52 | the refunded amount is the confirmed refunds, plus the reversal entry once reversed, and never exceeds the amount |
| Theorems.DisputedHasSomethingLeft | src/transactions/dispute-reversal-booking.ts:9-29 | a disputed payment always has something left, even if older refunds are confirmed meanwhile, so "nothing to take back" is never raised |
| Theorems.BookedExactlyOnce | src/transactions/transactions.service.ts:142-166 | a payment has 0 entries before success, 1 once booked, 2 if and only if reversed; a refund has 1 if and only if it succeeded |
| Theorems.BookedInTheAccountsCurrency | prisma/migrations/20260922000000_init_ledger/migration.sql:242-245 | every account of a booked transaction exists in its currency, so a payment in another currency is never booked |
| Theorems.TransitionCommitsIff | src/transactions/transactions.service.ts:95-170 | exactly which requests commit, read off the rows before the request, and which are recorded as late acknowledgments |
| Theorems.TransitionIsRefusedOnlyFor | src/transactions/payment-success-booking.ts:18-31 | the errors a transition can end with; a missing account, an unbalanced entry or nothing to take back never occur, and 404 only means an unknown reference |
| Refusals.TransitionAnswers | src/transactions/transactions.service.ts:95-176 | the answer to every transition request, read off the rows and accounts before it: when it is 404, 412, LX005, 422, a CHECK violation, an exhausted version, an inactive account, another currency, a late acknowledgment or success |
| Theorems.RejectedChangesNothing | src/transactions/transactions.service.ts:96-135 | a rejected transition changes nothing; a late acknowledgment adds exactly one exception |
| Theorems.LateAcknowledgmentNeverBooks | src/transactions/transactions.service.ts:120-135 | a transaction with a late acknowledgment stays EXPIRED and without entries in every later state |
| Theorems.HistoryIsAPath | prisma/migrations/20260922000000_init_ledger/migration.sql:463-514 | history in append order starts at INITIATED, follows allowed edges, ends at the current status and is no longer than the version |
| Theorems.RefundedNeverDecreases | prisma/migrations/20260927161719_transaction_merchant_id/migration.sql:57-68 | along every run the refunded amount never decreases, and after a confirmed refund a payment is never SUCCEEDED again |
| Service.Ledger.UpdateTransaction | prisma/migrations/20260927161719_transaction_merchant_id/migration.sql:33-74 | the UPDATE with its triggers rewrites the row and appends its history row, or refuses and changes nothing |
| Service.Ledger.InsertTransaction | prisma/migrations/20260922000000_init_ledger/migration.sql:366-399 | the INSERT with its trigger, CHECKs, unique indexes and foreign keys adds one row and one history row, or changes nothing |
| Service.Ledger.InsertPostings | prisma/migrations/20260922000000_init_ledger/migration.sql:228-260 | the loop over an entry's lines appends them all, or stops at the first that the trigger refuses |
| Service.Ledger.BookPaymentSuccess | src/transactions/payment-success-booking.ts:17-72 | the statements of the booking append the entry of the specification or fail with its error |
| Service.Ledger.BookRefundSuccess | src/transactions/refund-success-booking.ts:17-97 | the statements lock and update the parent, then append the entry of the specification, or fail with its error |
| Service.Ledger.BookDisputeReversal | src/transactions/dispute-reversal-booking.ts:19-78 | the statements update the same row again, append the entry and return the final row, or fail |
| Service.Ledger.Transition | src/transactions/transactions.service.ts:95-176 | the statements with commit or rollback have the same result and reply as the atomic specification, from and to reachable states |
| Service.Ledger.ExpireOneBatch | src/transactions/transactions.service.ts:204-233 | field by field: a row changes only if it was PENDING, not locked and past its expires_at, and becomes EXPIRED one version later; at most 200 rows do; if such a row is left, 200 changed and none of them expires later; or nothing changes at all |
| Service.Ledger.ExpireOverduePending | src/transactions/transactions.service.ts:194-202 | the loop, with other clients committing and holding locks between its batches: the total counts distinct rows, still EXPIRED, each past its expires_at at some reading; every row left PENDING past its expires_at was locked; it fails if and only if such an unlocked row has an exhausted version. When nobody else commits, exactly the rows taken change, and all batches amount to one update, in ceil(k/200)+1 batches when the clock stands still and nothing is locked |
| Exhaustion.SweepCanBeRejected | src/transactions/transactions.service.ts:137-140 | a reachable state whose overdue row no sweep can expire, got by asking for the status the row already has until its version is exhausted |
| Selection.SelectIsABatch | src/transactions/transactions.service.ts:214-220 | the selection meets the query's specification: eligible, distinct, unlocked, earliest expiry first, cut at 200 |
| Expiry.BatchIsExact | src/transactions/transactions.service.ts:214-230 | a batch that meets the query's specification has that effect on the rows, field by field |
| Expiry.SweepExpires | src/transactions/transactions.service.ts:225-230 | a batch expires exactly its rows, one version and one history row each, or is rolled back because of an exhausted version |
| Expiry.SweepsCompose | src/transactions/transactions.service.ts:178-191 | two batches one after the other are one update of all their rows |
| Expiry.OrderDoesNotMatter | src/transactions/transactions.service.ts:178-191 | the order in which rows expire shows only in the order of history rows |
| Expiry.NoRowIsSweptTwice | src/transactions/transactions.service.ts:186-190 | a row one sweep expired is in no later batch, whatever runs in between |
| Idempotency.InsertFirstIsLookUpFirst | src/transactions/idempotent-transaction.util.ts:11-31 | in every state insert-first gives the result of look-up-first, even when LX010 fires before the uniqueness check |
| Idempotency.ReplayReturnsTheRow | src/transactions/idempotent-transaction.util.ts:11-31 | a key has one row for ever; every later request with it gets that row or "key reused", whatever happened since, and writes nothing |
| Idempotency.RacingLookUp | src/transactions/idempotent-transaction.util.ts:39-55 | when others commit between the failed insert and the look-up, the answer is the specification's at one of the two moments |
| Idempotency.CreateTransactionIdempotently | src/transactions/idempotent-transaction.util.ts:32-56 | try to insert, look up on failure: the same state and answer as look-up-first |
| Payments.RefundIsProper | src/payments/payments.service.ts:90-108 | a refund prepared from an earlier read of its parent still copies the parent's provider, currency and merchant when inserted |
| Payments.RefundMayArrive | src/payments/payments.service.ts:90-108 | a refund prepared by the service is a request the interleaved model admits at any later time |
| Payments.PaymentIsCreatedIff | src/payments/payments.service.ts:42-57 | a payment is created if and only if its amount and currency are well-formed, its merchant exists, its key and identifiers are unused and it expires later than now |
| Payments.RefundIsCreatedIff | prisma/migrations/20260922000000_init_ledger/migration.sql:381-391 | a refund is created if and only if its parent is a payment with that much left, its key and identifiers are unused and it expires later than now |
| Payments.CreatePayment | src/payments/payments.service.ts:38-65 | a replay if the key exists; otherwise a new payment if and only if amount, currency, expiry, identifiers and merchant allow it, with every field of the stored row, its history row and the error of every refusal given outright |
| Payments.CreateRefund | src/payments/payments.service.ts:73-115 | 404 when the parent is missing or belongs to another merchant; a replay if the key exists; otherwise a new refund if and only if the parent has that much left, with every field of the stored row and the error of every refusal given outright |
| Chart.PayableCodeFormat | prisma/migrations/20260922000000_init_ledger/migration.sql:139-139 | the CHECK on account codes lets a merchant's payable account through if and only if the merchant's code has that format itself |
| Merchants.MerchantIsCreatedIff | src/merchants/merchants.service.ts:20-37 | exactly which merchants are created; otherwise nothing changes |
| Merchants.CreateMerchant | src/merchants/merchants.service.ts:14-37 | the merchant with an active XOF liability account of its own and nothing else changed, or a refusal, each with its error, that changes nothing |
| Simulator.CallbackActsOnWhatItRead | src/provider-simulator/provider-simulator.processor.ts:37-60 | a callback whose row changed since it was read is refused and changes nothing |
| Simulator.CallbackNeverForces | src/provider-simulator/provider-simulator.processor.ts:37-65 | a callback that moved a transaction left the status it had read, whatever committed in between; one that lost a race is silently ignored |
| Simulator.TransitionIfStillAt | src/provider-simulator/provider-simulator.processor.ts:45-65 | read, early returns, conditional transition, caught errors; field by field: unknown if and only if the reference is; ignored if and only if the status differed or the row changed; moved, with the tables of that transition, if and only if the status can be reached; a warning with its reason in every other case |
| Pagination.PageIsSound | src/transactions/transactions.service.ts:48-61 | a page holds rows with the requested merchant, status, provider and dates, older than the cursor, by decreasing createdAt and then id, at most the limit; its next cursor is its last row |
| Pagination.PageCovers | src/transactions/transactions.service.ts:36-54 | every matching row after the cursor is on the page or after its next cursor |
| Pagination.NextPageIff | src/transactions/transactions.service.ts:48-59 | there is a next cursor if and only if more rows match than the page holds |
| Pagination.AllIsComplete | src/transactions/transactions.service.ts:50-54 | a query that is not cut short returns exactly the matching rows, each once, strictly descending |
| Pagination.List | src/transactions/transactions.service.ts:20-62 | one page, 20 rows by default: requested rows past the cursor, newest first; every such row is on the page or past the next cursor; there is a next cursor, that of the last row, if and only if a row is missing |
| Pagination.ListAll | src/transactions/cursor.util.ts:3-15 | following nextCursor to null on a fixed table returns exactly the rows with the requested fields, by decreasing createdAt and then id, each once, in max(1, ceil(n/limit)) pages |
| Pagination.RunsMakeATimeline | src/transactions/cursor.util.ts:3-10 | any SQL transactions of the service may commit between two pages |
| Pagination.WalkDescends | src/transactions/cursor.util.ts:3-15 | the listing keeps descending across pages read from a changing table |
| Pagination.NoRowTwice | src/transactions/cursor.util.ts:3-10 | no row is returned twice, whatever is inserted or updated between pages and whatever the filters |
| Pagination.EveryRowIsReturned | src/transactions/cursor.util.ts:3-10 | every row present at the start that matches throughout is returned; with filters on frozen fields matching at the start is enough |
| Concurrency.OthersAreUndisturbed | src/transactions/transactions.service.ts:81-87 | a client that holds its row locks is not disturbed by any step of another client |
| Concurrency.LocksAreRespected | src/transactions/refund-success-booking.ts:22-25 | no client takes a row it updates, or that its foreign key refers to, while another client has it locked |
| Linearizability.EndIsAtomic | src/database/prisma.ts:33-62 | a SQL transaction that ends has the state and reply of its atomic step run at that moment |
| Linearizability.StepKeepsSysInv | src/transactions/refund-success-booking.ts:11-25 | every step of every client keeps locks exclusive and private copies equal to the locked rows |
| Linearizability.EveryInterleavingIsSerial | src/transactions/refund-success-booking.ts:11-52 | every interleaving of transitions, sweeps, inserts and new merchants commits what a serial run in commit order does, with the same replies, with clients arriving at any moment |
| Linearizability.ConcurrentStatesAreReachable | src/transactions/refund-success-booking.ts:11-16 | every state committed under concurrency is reachable serially, so concurrent refund confirmations accumulate and none is lost |
| Linearizability.OverlappingSweepsAreDisjoint | src/transactions/transactions.service.ts:186-190 | two overlapping sweeps never hold the same row |
| Deadlock.WaitingDescends | src/transactions/refund-success-booking.ts:22-25 | a client waits only for one with fewer locks to wait for: whoever holds a payment row waits for no row |
| Deadlock.NoDeadlock | src/transactions/transactions.service.ts:105-109 | the wait graph over row locks is acyclic, with chains of at most three clients |
| Deadlock.SomeoneCanStep | src/transactions/transactions.service.ts:214-220 | as long as a client is unfinished some client can take a step other than giving up |
| Deadlock.SchedulesAreFinite | src/database/prisma.ts:42-62 | a schedule in which finitely many clients arrive is finite |
| Deadlock.MaximalSchedulesEnd | src/database/prisma.ts:42-62 | a schedule no client can prolong by a step of its own ends with every client done |
| Deadlock.EveryoneCanFinish | src/database/prisma.ts:42-62 | from any point the clients at hand can all be brought to their end without any of them giving up |

## Left out

- EveryInterleavingIsSerial: does not interleave account deactivation, which no service performs; it is an atomic step of `Runs` only. A booking reads `is_active` without a lock, so a deactivation that commits meanwhile would order after it.
- InsertTransaction: an insert and its commit are one step; a second insert that waits for the first one's uncommitted unique key is not a step of its own.
- ExpireOneBatch: rows that expire at the same instant are taken in row order, although the query leaves their order open; `Selection.IsBatch`, which the interleaved model uses, allows any order.
- ExpireOverduePending: is given a batch from which the other clients are silent; the loop has no bound of its own, so it need not end while others keep making rows overdue.
- BalancesAreAClosedForm: covers what the application posts; manual entries and mirror entries are covered by `Balance` and `Mirror` instead.
- Row numbers stand for the UUIDs that foreign keys hold, and a merchant's unique, frozen code stands for its id; a UUID is kept only to break ties when listing.
- Actors, reasons and the LX007 check; every SQL transaction of the services declares its actor.
- `updated_at`, entry descriptions, account and merchant names, the merchant's `is_active` flag, the customer's number and the two regular expressions on transactions.
- `provider_reference` on transactions and its unique index: no service writes it. The one sent with a transition is kept in the late-acknowledgment record.
- The columns of reconciliation exceptions other than the transaction and the operator's reference; resolving and reporting exceptions, and the reconciliation rate.
- Real time: clock readings are parameters, and nothing is claimed about when a sweep runs or in what order `created_at` sorts history.
- The cursor's JSON and base64url encoding (decoding is taken to invert encoding, and a malformed cursor is not modelled), SHA-256 (a fingerprint is an opaque string), random references and UUIDs (parameters).
- Request validation: among other rules, its stricter format for merchant codes.
- HTTP controllers, guards, error presentation, BullMQ, Redis and scheduling of callbacks.
- API keys, statistics, audit presentation, role grants, seed and reset scripts, deployment.
- The isolation levels other than READ COMMITTED, which `withActor` can be asked for and no service uses.
