# Alby Hub: verified models of the payment ledger, the configuration store, backup and their helpers

Alby Hub is a self-custodial Lightning wallet that hands out sub-wallets to apps. This Dafny
project models the parts of it where a mistake loses or creates money, secrets or files, and
proves what those parts promise. `dafny verify dfyconfig.toml` checks everything.

## What is modelled

**The payment ledger.** `Ledger` is the transactions table: a sequence of rows, the id of a row
being its index, as ids increase and rows are never deleted. `Queries` holds the sums that balances
and budgets are, and `BudgetWindows` the calendar behind budget periods. `LedgerSteps` has one
function for each database transaction of the service. Every closure runs serialised, so
`LedgerRuns` takes *any* sequence of these closures, with any arguments, as a run: API calls,
notifications and hold-invoice waiters reach the table in no other way. On top of it:

* `Solvency`: isolated apps stay solvent and budgets are kept, up to the fee reserves of
  pending self-payments. The assumptions are those of `Trusted`: the node's fees stay within the reserve,
  self-payments are free, and no failed payment settles later. `LateSettlementSolventIff` says
  what the last one is worth.
* `LedgerMeaning`: what each database transaction does, in terms of the rows before and after.
* `EventAccounting`: each change of state is announced exactly once, after its commit.
* `SuccessDominates`: one outgoing row, and notifications and the call's own return racing for it,
  interleaved at every database access.
* `SelfPaymentCalls` and `SelfPayments`: self-paying calls, of hold invoices too, interleaved at every database
  access with each other, with the two halves of calls settling hold invoices and with other traffic, create no
  money, as long as no settle call marks a row that has failed since it was looked up.
* `UndisturbedCalls`: such a call, left alone, is the call of the service.
* `HoldPayments`: payers of self-paid hold invoices, their subscriptions, the two halves of settle and
  cancel calls, and the publisher. Payers and payees agree exactly as long as no settle call marks a row
  that a cancel call has failed since it was looked up.
* `Wallets` and `Payments`: what a payment does to every wallet's balance, whatever was settled before.
* `TransactionsService`: the class with the public calls, each proved against the same step
  functions and against those descriptions.
* `Events`: the publisher's list of listeners and the listener that wakes the payer.

**The configuration store.** `AesGcm` is the printed form of an encrypted value and its parser, over
an abstract cipher that rejects wrong keys (`Authentic`; a toy cipher shows the assumption can be met).
`Config` is the class with the table, the cache and the password change; `ConfigRuns` interleaves
reads with the two halves of a set, and with a password change between the clearing of its keys and its commit.

**Backup and restore.** `Keystreams` has the two stream ciphers (counter mode and output feedback,
sections 6.5 and 6.4 of NIST SP 800-38A, with a counter of the whole block that wraps), `Backup` the writer and the
reader that tries each. The block cipher
and the key derivation are parameters. `Files` has trees of files, `Extraction` the extraction of an archive,
`Publishing` its publishing under one name, `FinishRestore` the moving into place, and `WorkDirectory` the class
with the two calls. A crash or a failing call is possible anywhere, also within a removal.

**Smaller pieces.** `LikePattern` (escaping of search terms, with LIKE as in section 8.5 of SQL-92),
`Swaps` (fee bound of a swap-out, with exact percentages) and `Bark` (waiters of in-flight sends).

## Results that qualify what the code promises

* A payment made in the very instant a budget window starts is counted in no window
  (`Queries.UsageCountsIff`): the query asks for rows created after the start.
* A password change keeps the cache coherent except when a JWT secret was stored in the clear and is
  cached: it leaves the table and stays in the cache (`Config.RekeyedCoherentIff`, and in a concrete case
  `ConfigRuns.ClearSecretIsStaleInExample`). If the password check
  itself is stored in the clear, every password passes it before and after (`Config.OnlyNewPasswordPasses`).
* A key that is read between its clearing by a password change and the change's commit is cached as it was
  before. The cache is coherent after the commit exactly when that has not happened
  (`ConfigRuns.CommitCoherentIff`); otherwise the old password can go on passing (`ConfigRuns.OldPasswordStillPasses`, and in a
  concrete case `ConfigRuns.OldPasswordPassesInExample`).
* A legacy backup file is readable exactly when deciphering it with the current scheme does not happen to
  give the archive signature (`Backup.LegacyRoundTripIff`; a file for which it does in `Backup.LegacyFileIsMisread`).
* A restore with a top-level entry named `restore` never puts its files in place, however often it is run, and
  one whose first look at the restore directory fails ends well with nothing in place (`FinishRestore.CrashesDoNotMatter`).
* What is left of an earlier, unapplied restore is neither all nor nothing exactly when a removal of it was cut off
  within it and the new one never published (`Publishing.PartLeftIff`). That part, never a part of the new one, is then
  applied (`Publishing.PartialExtractionIsNeverApplied`, and in a concrete run `Publishing.PartOfEarlierIsApplied`).
* A Bark result delivered to a call whose payment could not be started is read by nobody and published nowhere
  (`Bark.DeliveredIsReadIff`, `Bark.UnreadForEver`).
* A second Bark send on a hash can register before the first has cleared it, and is then stranded
  (`Bark.StrandsNoneIff`, `Bark.SecondSendIsStranded`); the comment in the code expects one waiter for each hash.
* A settle call that overlaps a cancel call settles the cancelled hold invoice, unless it has no preimage or another
  row settled the invoice (`HoldPayments.OverlappingCallsAgreeIff`). Of all steps this is the only one that breaks
  the agreement of payers and payees (`HoldPayments.StepKeepsGoodIff`; a run that ends in disagreement in
  `HoldOverlap.OverlapEndsInDisagreement`), and the only one that credits a payee whose payer was refunded
  (`SelfPayments.StepKeepsSoundIff`; a run that creates money in `SelfOverlap.OverlapCreatesMoney`).
* With percentages of a hundred or more the swap limit is zero, which still accepts an invoice of less
  than a satoshi (`Swaps.CreatedSwapIsBounded`).

## Model

| member | source | states |
|---|---|---|
| Solvency.IsolatedAppsStaySolvent | transactions/transactions_service.go:1133-1213 | In every interleaving of trusted steps, an isolated app's balance plus the reserves of its pending self-payments is never negative |
| Solvency.LateSettlementSolventIff | transactions/transactions_service.go:905-962 | Settling a row that had failed keeps its app solvent exactly when the app can still afford amount and fee |
| Solvency.TrustedStepIsGood | transactions/transactions_service.go:1470-1519 | A trusted step changes at most one row, never to its owner's cost, or adds one row that costs nothing, has no owner or was checked |
| Solvency.BudgetsAreKept | transactions/transactions_service.go:1188-1207 | In every interleaving and as the window moves, usage since the start of the window, less the reserves of pending self-payments, stays within the maximum and 1998 msat |
| Solvency.NeverUsageIsAllSpent | db/queries/get_budget_usage.go:11-47 | For a permission that never renews the usage is, at every time and in every zone, the sum of all the app has ever spent after the zero time |
| Solvency.NeverBudgetsAreKept | transactions/transactions_service.go:1188-1207 | In every interleaving all an app has ever spent under a permission that never renews, less the reserves of pending self-payments, stays within the maximum and 1998 msat |
| Solvency.QuotaCheckBound | transactions/transactions_service.go:1188-1193 | The two floored divisions of the quota check together let through at most 1998 msat too much |
| Solvency.AffordablePaymentIsInserted | transactions/transactions_service.go:357-415 | A payment that balance and budget cover, and whose request is neither paid nor being paid, is never refused and adds exactly its pending row |
| LedgerMeaning.PaymentIsInsertedIff | transactions/transactions_service.go:357-415 | Inserted exactly when neither paid nor being paid and, if an app pays, it exists, has the permission, covers amount and reserve if isolated and keeps within its floored quota if it has one; each refusal exactly when its reason is the first to apply; what is inserted is the pending row, field by field |
| LedgerMeaning.KeysendIsInsertedIff | transactions/transactions_service.go:485-540 | A keysend is inserted under the same conditions but for those about an invoice, with its preimage; each refusal exactly for its reason |
| LedgerMeaning.LookupFindsFirst | transactions/transactions_service.go:361-383 | A struct filter finds the first row that agrees in direction, state and whichever of request and hash are not empty, and nothing exactly when no row does |
| LedgerMeaning.SettlingMeans | transactions/transactions_service.go:1470-1519 | A row settles exactly when there is a preimage and no settled row of its direction, request and hash; then which of its fields change to what, which event is raised, and that no other row changes |
| LedgerMeaning.CreatingMeans | transactions/transactions_service.go:1528-1575 | An unknown payment is added as a settled row under the same condition, field by field, with the event of its direction |
| LedgerMeaning.AcceptingMeans | transactions/transactions_service.go:993-1053 | Exactly the first pending incoming row with that request and that hash, empty ones compared too, becomes accepted and is marked as self-paid or not |
| LedgerMeaning.FailingMeans | transactions/transactions_service.go:1709-1769 | A row fails, losing its reserve and nothing else, exactly when it is pending or accepted, with its event |
| LedgerMeaning.PaysInRunsIff | transactions/transactions_service.go:357-415 | In runs too a payment or keysend is inserted exactly under these conditions, and otherwise nothing happens |
| LedgerMeaning.MarksInRunsIff | transactions/transactions_service.go:1470-1769 | In runs too a row settles or fails exactly under these conditions, with its event, and otherwise nothing happens |
| Queries.UsageCountsIff | db/queries/get_budget_usage.go:11-23 | A payment adds all it spends to the usage exactly when created after the window's start, and nothing otherwise |
| Queries.SubwalletTotalIsSumOfBalances | db/queries/get_total_subwallet_balance.go:10-40 | The single query is the sum of the per-app balances over exactly the sub-wallet apps |
| Wallets.WalletBalanceIsIsolatedBalance | db/queries/get_isolated_balance.go:8-33 | The sum of each row's signed worth to an app is the received sum less the spent sum of the two queries |
| Wallets.SettlingPaysOwner | transactions/transactions_service.go:1470-1519 | Settling an incoming row raises exactly its owner's balance, by its amount, and only the first time |
| Wallets.SettlingChargesPayer | transactions/transactions_service.go:1470-1519 | Settling a pending payment exchanges its reserve for its fee on exactly its payer's balance, and only the first time |
| BudgetWindows.BudgetWindowsTile | db/queries/get_budget_usage.go:25-70 | Now lies in its window, and a time has the same start exactly when it lies in the same window, for all four renewals |
| BudgetWindows.StartOfBudgetMonotone | db/queries/get_budget_usage.go:25-47 | The start of the window never moves back as time passes, and without renewal it is the zero time |
| BudgetWindows.NeverStartsAtZero | db/queries/get_budget_usage.go:44-45 | A budget that never renews has one window, from the zero time on at every instant and in every zone, and no renewal |
| BudgetWindows.YearStartClosed | db/queries/get_budget_usage.go:42-43 | The days before a year by the leap year rule, in closed form |
| BudgetWindows.MonthLengths | db/queries/get_budget_usage.go:40-41 | The lengths of the twelve months of common and leap years |
| BudgetWindows.FirstWeekday | db/queries/get_budget_usage.go:31-39 | Which day of the week the count of days starts on, so that weeks start on Mondays |
| BudgetWindows.CivilUnique | db/queries/get_budget_usage.go:30-43 | A day of a month has that year and month and no other, so dates across month ends and leap years are read back as they were made |
| BudgetWindows.AddDays | db/queries/get_budget_usage.go:36-40 | Calendar addition of days, with its carrying over, counts days |
| LedgerSteps.CalculateFeeReserveMsat | transactions/transactions_service.go:1214-1217 | The reserve is the least amount that is at least one per cent and at least ten satoshis |
| LedgerRuns.Finality | transactions/transactions_service.go:1470-1519 | In every run settled rows never change, failed rows only settle, and owner, direction, amount, invoice and hash are fixed |
| LedgerRuns.Uniqueness | transactions/transactions_service.go:1597-1617 | At most one settled row for each direction, hash and request, and at most one bolt11 payment in flight for each invoice |
| LedgerRuns.ApplyKeepsUniqueSettled | transactions/transactions_service.go:1528-1575 | Each step, settling and creating settled rows included, keeps settled rows unique |
| LedgerRuns.ApplyKeepsUniqueInFlight | transactions/transactions_service.go:357-415 | The duplicate check keeps bolt11 payments in flight unique, whatever else runs |
| EventAccounting.PublishedEventsMatchTable | transactions/transactions_service.go:1475-1518 | What is published is true of the committed table, and once all is published each settled row has one event of its direction and each failed row one |
| EventAccounting.EventsAreAccounted | transactions/transactions_service.go:1622-1659 | In every run the events raised for a row are exactly those its state owes |
| EventAccounting.OutboxCanBeDrained | transactions/transactions_service.go:1500-1518 | Whatever has been raised and not yet published can be published, after which all of it has been |
| EventAccounting.SettlePays | transactions/transactions_service.go:1470-1519 | A settlement raises one event when it settles the row and none when a settled row exists |
| EventAccounting.CreatePays | transactions/transactions_service.go:1528-1575 | A notification of an unknown payment raises one event exactly when it creates a row |
| EventAccounting.FailPays | transactions/transactions_service.go:1709-1769 | Marking a payment failed raises one event exactly when the row has just failed |
| SuccessDominates.SuccessDominatesFailure | transactions/transactions_service.go:882-990 | Whatever the order, repetition and interleaving, a processed success leaves the row settled with the first success's preimage and fee, and otherwise a processed failure leaves it failed |
| SuccessDominates.CallerKeepsGood | transactions/transactions_service.go:442-462 | The call's own return settles or fails the row only as the reports so far allow |
| SuccessDominates.ReporterFinishes | transactions/transactions_service.go:882-990 | From any state of the race, a handler or call left alone for four database accesses has reported, its report unchanged |
| SuccessDominates.ElsewhereIsRun | transactions/transactions_service.go:882-990 | The traffic the race is embedded in is any run of the ledger |
| SelfPayments.SelfPaymentsCreateNoMoney | transactions/transactions_service.go:334-462 | From an empty ledger, at every step of any self-paying calls for decoded invoices, of hold invoices too, of settle calls and of other traffic, all balances together are at most the external receipts, while no settle call marks a row failed since it was found |
| SelfPayments.UnbrokenSettlesSpoilNothing | transactions/transactions_service.go:1306-1352 | With each settle call as one step nothing such is marked, so no money is created in any interleaving |
| SelfPayments.StepKeepsSoundIff | transactions/transactions_service.go:1306-1352 | A step keeps every credit backed, and no failed hold invoice credited, exactly when it is not such a mark |
| SelfPayments.GivenUpCallFails | transactions/transactions_service.go:1095-1109 | A payer that cannot learn the block height fails its own payment and touches no other row |
| UndisturbedCalls.UndisturbedCallPays | transactions/transactions_service.go:334-462 | From any state of any interleaving, a self-paying call left alone does to the ledger what SendPaymentSync promises, with the same events and the same return; paying a hold invoice it has inserted its payment and waits |
| SelfOverlap.OverlapCreatesMoney | transactions/transactions_service.go:1306-1406 | A run of truthful steps with such a mark that ends with a balance though nothing was received from outside |
| SelfPaymentCalls.CreditKeepsGood | transactions/transactions_service.go:1055-1093 | Crediting an invoice is always backed by one pending payment of at least its amount that has credited nothing else |
| SelfPaymentCalls.CallPaysItsRequest | transactions/transactions_service.go:316-355 | A call that pays as SendPaymentSync inserts its row pays for the hash its request says and never less than the request asks |
| SelfPaymentCalls.HoldSettledKeepsGood | transactions/transactions_service.go:1306-1352 | Settling a hold invoice accepted by a payer of this node is backed by that payer's payment in the same way |
| SelfPaymentCalls.WakeKeepsGood | transactions/transactions_service.go:1111-1131 | A payer that is woken settles its payment if told that the hold invoice was settled, and fails only a payment that has credited nothing |
| HoldPayments.PayerAndPayeeAgree | transactions/transactions_service.go:1095-1131 | While no settle call marks a cancelled row: a payer's row is settled only if the hold row is settled with the same preimage; a reported cancellation has both rows failed; a reported settlement has the invoice paid for and settled |
| HoldPayments.UnbrokenCallsSpoilNothing | transactions/transactions_service.go:1306-1406 | With each settle and cancel call as one step no settle call marks a cancelled row, so the agreement holds in every interleaving |
| HoldPayments.StepKeepsGoodIff | transactions/transactions_service.go:993-1406 | A step keeps payers, invoices and announcements in agreement exactly when it is not a settle call marking, with a preimage and no settled twin, a row failed since its lookup |
| LedgerSteps.MarkHoldInvoiceAccepted | transactions/transactions_service.go:993-1053 | Exactly when a pending invoice has both the request and the hash, one such row becomes accepted, with its event, and no other row changes |
| HoldPayments.TerminalUpdateNotMissed | transactions/transactions_service.go:1095-1131 | A subscribed payer has, once publishing has drained, the ending of every row of its invoice that had not ended when it subscribed, whoever accepted it |
| HoldPayments.SettledPayerSettles | transactions/transactions_service.go:1111-1131 | A payer told of the settlement settles exactly its own row, with the invoice's preimage and its event, if no twin has settled |
| HoldPayments.CancelledPayerFails | transactions/transactions_service.go:1111-1131 | A payer told of the cancellation fails exactly its own row, with its event |
| HoldPayments.UninformedPayerFails | transactions/transactions_service.go:1095-1109 | So does a payer that cannot learn the block height |
| HoldPayments.SettleMarkKeepsGoodIff | transactions/transactions_service.go:1306-1352 | The marking half of a settle call keeps the agreement exactly when it does not settle a cancelled row |
| HoldPayments.CancelMarkKeepsGood | transactions/transactions_service.go:1354-1406 | The marking half of a cancel call always keeps the agreement, also after a settlement |
| HoldPayments.OverlappingCallsAgreeIff | transactions/transactions_service.go:1306-1406 | An accepted row cancelled between the halves of a settle call stays failed exactly when there is no preimage or a settled twin |
| HoldOverlap.OverlapEndsInDisagreement | transactions/transactions_service.go:1306-1406 | A run from the empty ledger after which the payer has failed and reported the cancellation while the payee is paid |
| TransactionsService.Service.constructor | transactions/transactions_service.go:159-164 | A new service has an empty table and has published nothing |
| TransactionsService.Service.MarkTransactionSettled | transactions/transactions_service.go:1470-1519 | In place, exactly the step that settles a row once, with its event |
| TransactionsService.Service.CreateSettledTransactionFromNotification | transactions/transactions_service.go:1528-1575 | In place, exactly the step that creates a settled row once, with its event |
| TransactionsService.Service.MarkPaymentFailed | transactions/transactions_service.go:1709-1769 | In place, exactly the step that fails a row unless it is failed, settled or missing |
| TransactionsService.Service.ConsumePaymentSent | transactions/transactions_service.go:882-962 | Settles the row it is about, pending before last failed before any other, or adds one if none is known, with exactly that event; with a preimage and no settled twin the first pending row of the hash settles if there is one, and every other row, failed ones included, stays as it was |
| TransactionsService.NoticedIsSettled | transactions/transactions_service.go:796-962 | A notification with a preimage leaves some row of its direction and hash settled, whether it settled it or found it settled |
| TransactionsService.NoticedIsStep | transactions/transactions_service.go:796-962 | What a notification commits is one of the steps that runs interleave, with the same arguments, events and table |
| TransactionsService.Service.ConsumePaymentFailed | transactions/transactions_service.go:964-990 | Exactly the first pending payment of the hash fails, with its event, and its payer gets back all it weighed |
| TransactionsService.Service.ConsumePaymentReceived | transactions/transactions_service.go:796-869 | Settles the first incoming row of the hash or adds one if none is known, with exactly that event; its owner receives the amount exactly when it had not been settled |
| TransactionsService.Service.SettleHoldInvoice | transactions/transactions_service.go:1306-1352 | Succeeds exactly when an accepted invoice of the preimage's hash is found and, unless paid from this node, the node settles it; then exactly its owner is credited, once |
| TransactionsService.Service.CancelHoldInvoice | transactions/transactions_service.go:1354-1406 | Succeeds exactly when an accepted invoice is found and the node agrees; then it fails, both events follow in order and no balance changes |
| TransactionsService.Service.MakeInvoice | transactions/transactions_service.go:166-245 | Adds, exactly for whole amounts of at least a satoshi that the node makes an invoice for, one pending row that agrees field by field with what the node says of it |
| TransactionsService.Service.InterceptSelfPayment | transactions/transactions_service.go:1055-1093 | Which of the four endings is reached for which pending invoice, and that crediting moves exactly its amount to its owner, or nothing if it had been settled |
| TransactionsService.Service.PayInserted | transactions/transactions_service.go:436-462 | A carried-out payment ends as the invoice or the node's answer says, with exactly the events of what was credited, settled or failed; every wallet's balance afterwards, also when the invoice or the payment had been settled before |
| TransactionsService.Service.InsertAndPay | transactions/transactions_service.go:357-462 | Refused for the reasons of PaymentIsInsertedIff with nothing changed, or inserted and carried out with exactly its events |
| TransactionsService.Service.SendPaymentSync | transactions/transactions_service.go:301-463 | The whole call: when it is undecodable, expired or refused; otherwise the new row holds the request without upper-case letters and the invoice's own amount, or if it has none the given one; for every answer every wallet's balance |
| Payments.PaymentMovesAmount | transactions/transactions_service.go:357-462 | A payment refused or failed changes no balance; a successful one moves exactly amount and fee, and the invoice's amount to its owner unless it had been settled |
| Payments.PaymentAddsItsRow | transactions/transactions_service.go:334-415 | Unless refused a payment adds one row: whose it is, its amount, request, hash and time, and marked as a self-payment exactly if an incoming row has that request and hash |
| TransactionsService.Service.SendKeysend | transactions/transactions_service.go:465-597 | No hex, a wrong length or refused, all with nothing changed; or inserted for the payer, with a receiving row for the recipient if it stays on this node, and carried out, also under a hash used before |
| Payments.KeysendMovesAmount | transactions/transactions_service.go:465-597 | A keysend refused or failed changes no balance; under an unused hash it succeeds exactly when it stays on this node or is sent, and moves exactly amount and fee |
| TransactionsService.Service.CheckApps | api/transactions.go:204-214 | Passes exactly when both named apps exist and are isolated |
| TransactionsService.Service.Transfer | api/transactions.go:198-229 | Which error for which reason, and otherwise the payment of the invoice just made, whatever the node makes of its request; if the invoice is the only one of its hash, it succeeds exactly when the payer has the permission, balance and quota, and then exactly the amount moves |
| Payments.TransferMovesAmount | api/transactions.go:198-229 | A transfer by the only invoice of its hash succeeds exactly when it is affordable and the preimage known; then exactly the amount moves, and otherwise no balance changes |
| Events.HoldInvoiceConsumer.ConsumeEvent | transactions/hold_invoice_self_payment_consumer.go:24-31 | The row goes to the settled or the canceled channel exactly when the event and its payment request say so |
| Events.EventPublisher.RegisterSubscriber | events/events.go:28-32 | The listener is appended |
| Events.EventPublisher.RemoveSubscriber | events/events.go:34-46 | The swap-and-shrink removes one registration of the listener, if there is one, and no other |
| Events.EventPublisher.PublishSync | events/events.go:51-67 | Every listener hears the event once for each of its registrations, and on no other channel |
| Events.EventPublisher.Publish | events/events.go:48-67 | One call of the listener is started for each of its registrations, and no other |
| Events.EventPublisher.RunStarted | events/events.go:62-64 | A started call, whenever it runs, reaches exactly its listener, on the channel the event is for |
| AesGcm.EncryptedOpensIff | config/aesgcm.go:27-107 | A password opens a printed value and gives the text back exactly when it derives the same key from the value's salt |
| AesGcm.HexRoundTrip | config/aesgcm.go:43-79 | Decoding encoded bytes gives the bytes |
| AesGcm.SplitEncrypted | config/aesgcm.go:39-49 | The printed form splits at its dashes into exactly salt, nonce and ciphertext |
| Config.Store.constructor | config/config.go:34-45 | A new store has an empty cache, which is coherent |
| Config.Store.Get | config/config.go:242-285 | A missing key reads as empty, an encrypted value is deciphered if there is a password, and any other is returned as stored; the answer is cached exactly when it was missing and readable |
| Config.Store.Set | config/config.go:287-334 | A missing or overwritten key reads back as the value under its password, and under another only with the same key; a present key that is to be ignored stays as it was, one whose value alone is replaced keeps its encrypted flag; no other key changes and exactly that key is dropped from the cache |
| Config.WrittenReads | config/config.go:287-334 | The same of any table: what every password reads after an insert under each conflict rule |
| Config.Store.CheckUnlockPassword | config/config.go:408-413 | True exactly when the check row reads as the expected text under the password |
| Config.Store.ChangeUnlockPassword | config/config.go:336-392 | Succeeds exactly when the old password passes and opens every encrypted row; otherwise the error says why and the table is unchanged; coherent afterwards exactly under a stated condition |
| Config.Store.Reencrypt | config/config.go:343-371 | The loop re-encrypts every encrypted row or fails exactly when one cannot be read |
| Config.Store.GetJWTSecret | config/config.go:150-160 | Answers exactly while unlocked since the last password change, and then with the secret the table holds, encrypted for the password that unlocked it |
| Config.Store.LoadJWTSecret | config/config.go:163-205 | Succeeds exactly when the password passes and, unless a secret is loaded already, opens the stored one; that one is kept if it is encrypted and reads as something else than what is stored, and otherwise replaced by the random one; no other row changes |
| Config.RekeyedReads | config/config.go:336-392 | After a change every encrypted value reads under the new password as under the old, plain rows read as before, and the JWT secret is gone |
| Config.OnlyNewPasswordPasses | config/config.go:336-413 | The new password passes; another one passes exactly when the check row was not encrypted |
| Config.RekeyedCoherentIff | config/config.go:336-392 | The cache is coherent after a change exactly when no JWT secret stored in the clear was cached |
| ConfigRuns.CacheStaysCoherent | config/config.go:242-334 | Whatever reads and sets interleave, a key no set has yet to clear is cached as it is stored |
| ConfigRuns.NoStaleAnswerAfterSets | config/config.go:242-334 | Once all sets of a key have returned, a read answers as an uncached read does |
| ConfigRuns.LastSetIsAnswered | config/config.go:242-334 | Once a set has written and every set of its key has returned, whatever runs in between, its value is answered until the key is written again |
| ConfigRuns.SetReturnsItsValue | config/config.go:287-334 | A set that runs to its end is answered right after |
| ConfigRuns.RolledBackChangeIsInvisible | config/config.go:336-392 | A change that is rolled back, whatever it has cleared and whatever was read meanwhile, leaves the table and every answer as they were |
| ConfigRuns.StaleBetweenWriteAndClear | config/config.go:296-307 | Between a set's write and its clearing a cached answer is wrong exactly when the write changed what is read |
| ConfigRuns.RunStaysTracked | config/config.go:336-392 | In every interleaving a key that a change has rewritten is cached exactly for the passwords that have read it since |
| ConfigRuns.CommitCoherentIff | config/config.go:336-392 | After the commit of a change the cache is coherent exactly when no rewritten key was read between its clearing and the commit, nor a secret in the clear cached |
| ConfigRuns.OldPasswordStillPasses | config/config.go:336-413 | If the check row was so read under the old password, that one is still answered as passing, though the table refuses it |
| ConfigRuns.OldPasswordPassesInExample | config/config.go:336-413 | A concrete change with one read in between, after which the old password is answered as passing though the re-encrypted table refuses it |
| ConfigRuns.ClearSecretIsStaleInExample | config/config.go:336-392 | A concrete change after which a secret that was stored in the clear and read is still answered, though the table has none |
| LikePattern.ReplacementsEscapeOnce | transactions/transactions_service.go:73-83 | The three ordered replacements escape each special character exactly once |
| LikePattern.EscapedPatternMatchesSubstring | transactions/transactions_service.go:696-706 | The pattern of a search term matches a text exactly when the term occurs in it |
| Backup.CurrentRoundTrip | api/backup.go:389-487 | A file of the current scheme decodes to its archive |
| Backup.LegacyRoundTripIff | api/backup.go:429-487 | A legacy file decodes to its archive exactly when the current scheme's trial misses the signature |
| Backup.LegacyFileIsMisread | api/backup.go:429-487 | A concrete legacy file that the current scheme's trial takes for its own |
| Keystreams.XorSplit | api/backup.go:32-61 | The keystream carries on: deciphering a whole is deciphering its parts, each from its own position |
| Keystreams.CurrentBytes | api/backup.go:50 | Each byte of the current scheme is exclusive-ored with the byte of the enciphered counter whose value is the IV's and the number of blocks before it, modulo 2^128 |
| Keystreams.LegacyBytes | api/backup.go:59 | Each byte of the legacy scheme is exclusive-ored with the byte of the IV enciphered once more than there are blocks before it |
| Keystreams.CountersDiffer | api/backup.go:50 | Two blocks of a file use different counters unless 2^128 blocks lie between them |
| Keystreams.IncrementedAddsOne | api/backup.go:50 | Carrying from the last byte on adds one to the value of a block of any size, and wraps the greatest to zero |
| Keystreams.Increment | api/backup.go:50 | The in-place loop that stops at the first byte that does not wrap is that increment |
| Keystreams.Stream.Refill | api/backup.go:50-59 | The next block is the enciphered register, which then moves on by one or takes the block |
| Keystreams.Stream.XorKeyStream | api/backup.go:471-474 | Block by block from the register, each call deciphers from the position the last one left |
| Backup.EncryptingWriter | api/backup.go:389-427 | Writes salt and IV and returns a stream of the current scheme at position zero |
| Backup.WriteArchive | api/backup.go:183-242 | However the archive is cut into writes, the output is a salt of 32 bytes, an IV of 16 and the ciphered whole |
| Backup.Input.ReadFull | api/backup.go:441-454 | Reads all that was asked for, or all there is, however short the single reads |
| Backup.DecryptingReader | api/backup.go:429-487 | Returns a reader of exactly the decoded archive, or the error the file deserves: a short header exactly for less than 28 bytes |
| Backup.ArchiveReader.Read | api/backup.go:479-484 | Each read takes some of what is left, first from the deciphered start and then through the stream |
| Backup.ReadArchive | api/backup.go:429-487 | Read in any pieces from any source, the result is the decoded file |
| Backup.RoundTrip | api/backup.go:389-487 | Writing in any chunks and reading back through any short reads gives the archive |
| Backup.TrialOnHeader | api/backup.go:457-477 | The trial on the header decides for the whole file, and the rest continues where the header ended |
| FinishRestore.CrashesDoNotMatter | service/service.go:183-226 | Interrupted anywhere, by crashes or failing calls, and rerun any number of times, the files to be left never change; a run to its end ends well with them in place exactly when no entry is named like the restore directory and the first look did not fail to see that directory |
| WorkDirectory.WorkDir.FinishRestoreNode | service/service.go:183-226 | It leaves exactly those files and succeeds under the same condition, if no call fails; on failure everything is still pending or in place, and if it succeeds though the first look failed nothing has changed |
| WorkDirectory.WorkDir.RestoreBackup | api/backup.go:251-368 | Publishes exactly the extracted archive, exactly when it can be extracted, or changes nothing; if a call fails, what is missing is at most a part of what was published before |
| WorkDirectory.WorkDir.ExtractAll | api/backup.go:304-356 | The staging directory holds every entry, or an entry was refused |
| WorkDirectory.WorkDir.ExtractEntry | api/backup.go:310-348 | One entry is written inside the staging directory, or refused with nothing changed |
| Publishing.PartialExtractionIsNeverApplied | api/backup.go:302-368 | Wherever extraction and publishing are cut off or fail, what is later applied is the whole archive, what had been published before, or nothing; only if a removal of that was cut off within it, the part left of it |
| Publishing.PartLeftIff | api/backup.go:358-363 | Of an earlier restore some but not all is left exactly when its removal was cut off within it and nothing was published after |
| Publishing.PartOfEarlierIsApplied | api/backup.go:358-363 | A concrete run and a next start after which one of the two files of an earlier restore is in place |
| Files.RemainsFiles | api/backup.go:358-360 | Every file in what a failed removal leaves is a file of the whole tree, with its contents |
| Extraction.ExtractedHoldsEveryEntry | api/backup.go:310-356 | An extracted tree holds at every path the last entry of that path, and no other file |
| Extraction.LocalStaysInside | api/backup.go:311-325 | A local entry name joined to the staging directory stays in it, so the second check never fires |
| Extraction.ExtractedIff | api/backup.go:310-356 | An archive is extracted exactly when no name is empty or absolute or leads outside or nowhere, and no path leads through another |
| Extraction.PlainArchivesAreExtracted | api/backup.go:310-356 | Every archive of names of plain parts, none leading through another, is extracted, to a file at exactly each name |
| Extraction.CleanReduces | api/backup.go:315-320 | In the lexical path empty parts and dots count for nothing and a part is undone by double dots behind it |
| Extraction.ReducedNamesAreClean | api/backup.go:315-320 | A name of double dots and then plain parts is its own lexical path |
| Files.PutIff | api/backup.go:327-345 | A file can be written exactly when its path is not a directory and no file is on the way |
| Bark.BarkService.RegisterInflightSend | lnclient/bark/bark.go:522-530 | Registers the channel exactly when the hash is free |
| Bark.BarkService.ClearInflightSend | lnclient/bark/bark.go:532-536 | Removes whatever is registered under the hash |
| Bark.BarkService.TakeInflightSend | lnclient/bark/bark.go:538-546 | Hands out the registered channel once, with room for a result |
| Bark.BarkService.DeliverSendResult | lnclient/bark/bark.go:375-383 | The result goes to the waiter or to the fallback, never both |
| Bark.BarkService.HandleLightningSendMovement | lnclient/bark/bark.go:293-353 | Of a terminal movement with a hash the waiter gets, or the event says: failed or canceled as unsuccessful, successful with the preimage and the fee in millisatoshis; without a preimage there is no event; other movements do nothing |
| Bark.DeliveryNeverBlocks | lnclient/bark/bark.go:375-383 | In every interleaving a channel taken out of the registry has room |
| Bark.EveryMovementGoesOnce | lnclient/bark/bark.go:293-383 | In every interleaving two movements never reach the same call, and one that reaches a call is not published |
| Bark.ResultsComeFromOwnHash | lnclient/bark/bark.go:499-520 | What a call receives is the result of an unpublished movement of its own hash |
| Bark.DeliveredIsReadIff | lnclient/bark/bark.go:503-516 | A delivered result has been received, or is there for its waiting call, exactly when that call's payment did not fail to start |
| Bark.UnreadForEver | lnclient/bark/bark.go:503-516 | What a call whose payment failed to start leaves unread is never read |
| Bark.BlockedCallsAreReached | lnclient/bark/bark.go:499-546 | With one active send for each hash, a blocked call is registered, has its result or is about to get it |
| Bark.StrandsNoneIff | lnclient/bark/bark.go:503-506 | A step puts a waiting call out of reach exactly when it clears a registration that another waiting call has made |
| Bark.SecondSendIsStranded | lnclient/bark/bark.go:499-536 | A run in which a second send on a hash waits for ever while its result is published |
| Swaps.LimitIsLeastPlusTolerance | swaps/swaps_service.go:384-400 | The limit less ten is the least amount that covers what is received and both miner fees once the provider's percentage and one per cent are taken off |
| Swaps.VerdictsHaveReasons | swaps/swaps_service.go:404-420 | Which invoice is refused for which reason, and that an accepted amount is the whole satoshis of the invoice |
| Swaps.NothingLeftNothingAccepted | swaps/swaps_service.go:384-420 | From 99 per cent of the provider on the limit is zero and no invoice of a satoshi or more is accepted |
| Swaps.CreatedSwapIsBounded | swaps/swaps_service.go:338-345 | Any accepted amount is below the exact price and eleven satoshis, and below one satoshi when the percentages leave nothing |
| Swaps.HonestInvoiceIsAccepted | swaps/swaps_service.go:392-420 | Any amount up to ten above the least sufficient one is accepted and stored in whole satoshis |
| Swaps.WhatIsPaidIsBounded | swaps/swaps_service.go:1208-1222 | The check before paying accepts the invoice accepted at creation, and whatever invoice it admits costs less than the exact price and twelve satoshis |
| Swaps.RecheckAdmitsIff | swaps/swaps_service.go:404-420 | The check before paying admits exactly invoices of the swap's hash with a positive amount of no more whole satoshis |

## Left out

- LedgerSteps.CalculateFeeReserveMsat: does not model the floating-point product, which can be one millisatoshi higher; the same goes for the division in `Swaps.LimitIsLeastPlusTolerance`.
- Solvency.IsolatedAppsStaySolvent: apps, their isolation and their permissions are fixed during a run.
- Solvency.BudgetsAreKept: the maximum and the renewal of a budget are fixed during a run, and amounts are unbounded integers.
- BudgetWindows.BudgetWindowsTile: does not model zones whose offset changes, nor the conversion of the renewal time to whole unsigned seconds.
- SelfPayments.SelfPaymentsCreateNoMoney: does not model failure notices for rows of self-payments nor self-paid keysends, whose hash may name another row; a hold invoice's request names no other row, and the empty text decodes to no invoice.
- TransactionsService.Service.MakeInvoice: does not model an app overridden through the metadata.
- TransactionsService.Service.ConsumePaymentReceived: takes the app as already resolved from the custom records.
- Config.Store.Get: an empty key, which does not filter the query, is not modelled apart.
- Config.Store.ChangeUnlockPassword: is one step, with nothing between the clearing of a key and the commit; `ConfigRuns` interleaves it.
- AesGcm.EncryptedOpensIff: a value without two dashes, which ends the original program, is an error of its own here.
- LikePattern.EscapedPatternMatchesSubstring: does not model the database's own case folding.
- Bark.BarkService.HandleLightningSendMovement: the send state is an argument.
- Database errors, isolation levels below serialisable and the machine width of amounts, which the bitcoin supply keeps far from overflow.
- The periodic check of unsettled transactions, which only calls the two mark functions.
- Budget warnings and permission events, descriptions, metadata, labels, boostagrams, failure reasons and settle deadlines, none of which affect balances.
- The removal of old database files before a restarted restore, and the archive format itself.
- Lightning backends, Boltz, HTTP and desktop handlers, relays and notifications, which appear only as an environment.
- Cryptographic strength: key derivation, block cipher, authenticated encryption and hashes are parameters with stated assumptions.
