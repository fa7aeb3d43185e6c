# Banking ledger engine

This is a Dafny model of the ledger engine behind the bank's transaction service. The state is:
- a table of accounts: id, account number, balance, type, creation time, active flag;
- an append-only list of transaction records;
- an append-only list of audit entries.

The transaction processor runs on top of that state. It does four things:
- **Transfer** between two accounts. It checks a fixed chain of rules, then debits one account, credits the other, and appends one record and one audit entry.
- **Deposit** and **Withdrawal** on one account, each with its own rule chain.
- **Batch**: routes each request by its lower-cased type and reports whether every request succeeded.

Two stores sit underneath:
- The account repository. Its lookups see only active accounts. It creates accounts under a fresh id, and deletes them softly: the row stays and is marked inactive.
- The transaction repository. It appends entries, forcing the status "Completed", and lists an account's history newest first.

The account service opens accounts with a zero balance and delegates its lookups to the account repository.

Balances are `decimal(18,2)` in the database (`Data/BankingDbContext.cs:21`). They are modelled exactly as whole cents (`int`).

Files and modules:
- `models.dfy` (`Models`): the records and the well-formedness of a ledger.
- `storage.dfy` (`Storage`): the shared `Database` object, whose fields the operations update in place.
- `account_store.dfy` (`AccountStore`): the active-only queries and the `AccountRepository` class.
- `transaction_store.dfy` (`TransactionStore`): the history queries and the `TransactionRepository` class.
- `totals.dfy` (`Totals`): the total of all balances.
- `transaction_service.dfy` (`TransactionProcessing`):
  - the functions `Transfer`, `Deposit`, `Withdrawal`, `Dispatch` and `Batch` say what each operation does to the whole ledger;
  - the methods of `TransactionService` perform the operations in place;
  - each method is proved to produce exactly the state and response of its function.
- `account_service.dfy` (`AccountManagement`): the `AccountService` class.
- `ledger_properties.dfy` (`LedgerProperties`): properties that span several operations or the whole table, and the unit test's batch example.

## Model

| member | source | states |
|---|---|---|
| AccountStore.ActiveById | Data/Repositories/AccountRepository.cs:25-31 | finds an account only when one with that id is active, and returns that row; in a well-formed table it finds one exactly when an active row carries the id |
| AccountStore.ActiveByNumber | Data/Repositories/AccountRepository.cs:33-37 | finds an account exactly when an active account carries the number; the result is such an account, and it is the one, since numbers are unique |
| AccountStore.ActiveAccounts | Data/Repositories/AccountRepository.cs:39-44 | exactly the active accounts, none missing and no inactive one, each unchanged |
| AccountStore.AccountRepository.Create | Data/Repositories/AccountRepository.cs:46-55 | stores the account active, with the given number and creation time, under a fresh id; existing rows, records and audit entries are unchanged; the insert is refused (nothing changes) exactly when the number is already taken |
| AccountStore.AccountRepository.Update | Data/Repositories/AccountRepository.cs:57-62 | the stored row under the account's id becomes the given account; every other row, the records and the audit entries are unchanged; the store stays well formed |
| AccountStore.AccountRepository.Delete | Data/Repositories/AccountRepository.cs:64-74 | returns true exactly when the id named an active account, which then becomes inactive and keeps its row; otherwise nothing changes; afterwards the id is found neither by the id lookup nor in the list of all accounts |
| TransactionStore.InvolvingAccount | Data/Repositories/TransactionRepository.cs:35 | every entry kept names the account as source or destination, and each such entry is kept as many times as the log holds it |
| TransactionStore.SortNewestFirst | Data/Repositories/TransactionRepository.cs:48-55 | the entries ordered by date, newest first, as a permutation of the log |
| TransactionStore.HistoryOf | Data/Repositories/TransactionRepository.cs:30-38 | newest first; an entry appears exactly when it is in the log and names the account; each appears as often as in the log |
| TransactionStore.FindById | Data/Repositories/TransactionRepository.cs:40-46 | none exactly when no entry carries the id, otherwise the first entry that does; in a log numbered 1, 2, 3, ... it finds an entry exactly for ids 1 to the log's length, and that entry sits at position id - 1 |
| TransactionStore.TransactionRepository.Create | Data/Repositories/TransactionRepository.cs:20-28 | the stored entry is the given one with the date set to now, the status forced to "Completed" and the next id; the log grows by exactly that entry and nothing else changes |
| TransactionProcessing.TransferRejection | Business/Services/TransactionService.cs:51-104 | for each of the five messages (same account, amount not positive, source not found, destination not found, insufficient funds): it is reported exactly when its rule is the first one broken; nothing is reported exactly when both accounts are distinct and active, the amount is positive and the source covers it |
| TransactionProcessing.Transfer | Business/Services/TransactionService.cs:45-161 | a refused transfer leaves the ledger as it was and reports the first broken rule; a successful one debits the source and credits the destination by exactly the amount, keeps the source at or above zero and the pair's sum unchanged, appends one "Transfer"/"Completed" record with both ids and one "Transactions"/"INSERT" audit entry, reports the source's new balance and touches no other account |
| TransactionProcessing.Deposit | Business/Services/TransactionService.cs:163-227 | an amount that is not positive or a missing or inactive account is refused with its message and nothing changes; otherwise the account is credited by exactly the amount, one "Deposit" record naming only the destination is appended, and the new balance is reported |
| TransactionProcessing.Withdrawal | Business/Services/TransactionService.cs:229-302 | an amount that is not positive, a missing or inactive account, or a balance below the amount is refused with its message and nothing changes; otherwise the account is debited by exactly the amount and stays at or above zero, and one "Withdrawal" record naming only the source is appended |
| TransactionProcessing.Lower | Business/Services/TransactionService.cs:328 | same length as the input, each letter A to Z lower-cased and every other character kept |
| TransactionProcessing.Dispatch | Business/Services/TransactionService.cs:328-338 | routes "transfer", "deposit" and "withdrawal" (any letter case) to their operation; any other type, or none, fails with "Invalid transaction type" and changes nothing; a failed request changes nothing; a successful one appends exactly one record and keeps the earlier ones |
| TransactionProcessing.Batch | Business/Services/TransactionService.cs:324-343 | one response per request; the set of accounts and the well-formedness of the ledger are kept |
| TransactionProcessing.AllSucceeded | Business/Services/TransactionService.cs:342 | true exactly when every response reports success |
| TransactionProcessing.TransactionService.ProcessTransfer | Business/Services/TransactionService.cs:45-161 | the store's new state and the response are exactly those of Transfer on the old state |
| TransactionProcessing.TransactionService.ProcessDeposit | Business/Services/TransactionService.cs:163-227 | through the two repositories, the new state and the response are exactly those of Deposit on the old state |
| TransactionProcessing.TransactionService.ProcessWithdrawal | Business/Services/TransactionService.cs:229-302 | through the two repositories, the new state and the response are exactly those of Withdrawal on the old state |
| TransactionProcessing.TransactionService.GetAccountBalance | Business/Services/TransactionService.cs:304-316 | none exactly for an unknown or inactive id; otherwise that account's id, number, balance and type |
| TransactionProcessing.TransactionService.GetAccountTransactions | Business/Services/TransactionService.cs:318-321 | newest first; exactly the entries of the store that name the account |
| TransactionProcessing.TransactionService.ProcessTyped | Business/Services/TransactionService.cs:328-338 | the new state and the response are exactly those of Dispatch on the old state |
| TransactionProcessing.TransactionService.ProcessMultipleTransactions | Business/Services/TransactionService.cs:324-343 | the requests are applied in order, each to the state the previous ones left; the final state is that of Batch; the result is true exactly when every response succeeded |
| AccountManagement.AccountService.CreateAccount | Business/Services/AccountService.cs:14-25 | a created account has balance 0, is active, and has the given type, the given number and a fresh id; the table gains exactly that row; refused exactly when the number is taken; the records and audit entries are unchanged |
| AccountManagement.AccountService.GetAccount | Business/Services/AccountService.cs:27-30 | finds an account exactly when the id names an active one, and returns that row; none for an inactive account |
| AccountManagement.AccountService.GetAllAccounts | Business/Services/AccountService.cs:32-35 | exactly the active accounts, each unchanged |
| AccountManagement.AccountService.DeactivateAccount | Business/Services/AccountService.cs:37-40 | true exactly when an active account was deactivated, and then only its active flag changes; false changes nothing; the account is then no longer found; the records and audit entries are unchanged |
| LedgerProperties.TransferConservesTotal | Business/Services/TransactionService.cs:107-108 | a transfer, refused or not, leaves the total of all balances unchanged |
| LedgerProperties.DepositAddsToTotal | Business/Services/TransactionService.cs:191 | a successful deposit raises the total of all balances by exactly its amount; a refused one leaves it unchanged |
| LedgerProperties.WithdrawalTakesFromTotal | Business/Services/TransactionService.cs:266 | a successful withdrawal lowers the total of all balances by exactly its amount; a refused one leaves it unchanged |
| LedgerProperties.DispatchMovesTotalByInflow | Business/Services/TransactionService.cs:328-338 | one batch request moves the total by what it brought in: a successful deposit's amount, minus a successful withdrawal's amount, 0 otherwise |
| LedgerProperties.BatchMovesTotalByNetInflow | Business/Services/TransactionService.cs:324-343 | over a whole batch the total moves by exactly the successful deposits minus the successful withdrawals |
| LedgerProperties.TransfersOnlyConserveTotal | Business/Services/TransactionService.cs:326-341 | a batch made only of transfers keeps the total of all balances |
| LedgerProperties.BatchKeepsBalancesNonNegative | Business/Services/TransactionService.cs:324-343 | if no balance is negative before a batch, none is after it |
| LedgerProperties.BatchRecordsEachSuccess | Business/Services/TransactionService.cs:324-343 | a batch appends exactly one record per successful request and keeps every earlier record; a later failure undoes nothing |
| LedgerProperties.TransferTypeIsRecognised | Business/Services/TransactionService.cs:328-330 | the type "Transfer" lower-cases to "transfer", so the dispatcher routes it to the transfer |
| LedgerProperties.SeededFitsExample | Tests/TransactionServiceTests.cs:46-48 | the test's three seeded accounts (1000, 500 and 0, all active) meet the premises of the batch example and of the counter-example |
| LedgerProperties.BatchOfThreeTransfers | Tests/TransactionServiceTests.cs:156-180 | over those balances, the batch 1 to 2 of 100, 1 to 3 of 150, 2 to 3 of 50 succeeds in full and leaves 750, 550 and 200 |
| LedgerProperties.SeededBatchOutcome | Tests/TransactionServiceTests.cs:44-180 | starting from the test's own seeded table, its batch succeeds in full, keeps the three accounts and ends at 750, 550 and 200 |
| LedgerProperties.TestExpectationContradictsConservation | Tests/TransactionServiceTests.cs:178 | over the three seeded accounts, that batch can never leave 750, 450 and 200 |

## Left out

- Concurrency. The five-permit semaphore (`Business/Services/TransactionService.cs:29`, `:34-42`) and the parallel dispatch of a batch (`:326-341`) are left out. Each operation is one atomic step over the state, and a batch applies its requests in list order.
- Database transactions and the exception paths. The begin, commit and rollback calls are left out, and so are the two error policies: the transfer's "Transfer failed due to system error" answer (`:150-159`) and the rethrow in deposit and withdrawal (`:216-221`, `:291-296`). No storage call fails in the model.
- TransactionProcessing.Deposit and TransactionProcessing.Withdrawal require the account id to be present when the amount is positive. The source reads `.Value` on the nullable id there and throws when it is absent; that exception is not modelled.
- Clocks and generated numbers. The creation, record and audit timestamps are a parameter `now`. A whole batch shares one `now`. The clock-derived account number (`Data/Repositories/AccountRepository.cs:76-79`) is a parameter of `Create`.
- AccountStore.AccountRepository.Create refuses a number that is already taken. This follows the unique index on the account number (`Data/BankingDbContext.cs:25`), modelled as a refusal rather than a storage exception. An in-memory provider would not enforce it.
- AccountStore.AccountRepository.Update requires the row to exist and its number to stay unique, which the store's key and index demand. A rejected update is not modelled.
- Identity assignment. Account ids come from a counter. Transaction ids are the position in the log plus one, which is the order the store assigns them in.
- The audit entry's `RecordId` is not modelled, because the source reads it before the store assigns the id. Its `NewValues` text is kept as its parts: the amount and the two account numbers.
- `ToLower` is modelled for the letters A to Z only. Culture-specific case mappings are not modelled.
- TransactionStore.SortNewestFirst states order and permutation. It does not state stability: the source does not specify the order of entries that share a date.
- The list of all accounts is a map keyed by id. The order of the source's list is not specified.
- Balances are unbounded integers. The column is `decimal(18,2)` (`Data/BankingDbContext.cs:21`), so the store cannot hold a balance of 10^16 or more, and saving a deposit or transfer that reaches it fails. In the model that operation succeeds.
- Column length limits (`Data/BankingDbContext.cs:20`, `:22`) and amounts with more than two decimals are not modelled.
- The total-balance lemmas add up all accounts, active or not. Inactive accounts never change balance in any operation. The active-only total moves when an account is deactivated, which is not a flow of money.
- The record's status is always "Completed". The source never writes "Failed", and refused requests append no record.
- Logging, navigation properties (`.Include`), the HTTP and RPC front-ends, the desktop client and the dependency-injection wiring are not part of this model.

## Findings

| source | as written | input that shows it | evidently intended | confidence | as-written member | corrected member |
|---|---|---|---|---|---|---|
| Tests/TransactionServiceTests.cs:178 | after the batch 1 to 2 of 100, 1 to 3 of 150, 2 to 3 of 50, over accounts seeded with 1000, 500 and 0, account 2 is expected to hold 450 | the test's own seed and batch: the transfers keep the total of 1500, and 750 + 450 + 200 = 1400, so no order of the three transfers ends at 450 | 550 (the line's own comment, 500 + 100 - 50), with 750 and 200 for the other two | not executed | LedgerProperties.TestExpectationContradictsConservation | LedgerProperties.BatchOfThreeTransfers |
