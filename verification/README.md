# Account balance engine — Dafny model

This project models the core of the account service's balance engine:

- the **account entity** and its three primitives: debit with an overdraft
  check, credit with a negative-amount guard, and the one-way move to
  `UNREGISTERED`;
- the **use-balance pipeline** of the transaction service. It resolves the
  user, then the account. It validates owner, then status, then balance. It
  debits the account and appends one `USE`/`S` record whose balance snapshot
  is the balance after the debit. Its failure-recording path appends a
  `USE`/`F` record and leaves the balance alone;
- the controller's **record-on-failure composition**: a typed error from the
  pipeline is recorded as a failed attempt and then raised again;
- the **transaction projection** (`TransactionDTO.toTransactionDTO`);
- the **lock service** (key `"ACLK:"` + account number, a failed `tryLock`
  mapped to `ACCOUNT_TRANSACTION_LOCK`, an interrupted wait swallowed) and the
  **lock aspect** (lock, then proceed, then unlock in a `finally`).

The repositories are finite maps (user id → user, account number → account)
and the ledger is a `seq<Transaction>`. The external lock service is a set of
held keys, and each `tryLock` answer is an input (`Acquired`, `NotAcquired`,
`Interrupted`). The UUID transaction id and the current time are inputs too.
Errors are the closed datatype `Errors.ErrorCode` and operations return
`Errors.Result`.

Module `Engine` runs the use-balance endpoint under the lock guard and over
sequences of calls made one after another. It proves four things by
induction. No balance ever goes negative. Exactly one `USE` record is written
per call that gets past the lock and finds its account. Each balance drops by
exactly the total of the successful records written for it. Locks whose keys
were free are all released again.

Files: `errors.dfy` (error codes, `Option`, `Result`), `account.dfy`
(`Domain`), `ledger.dfy` (`Ledger`: record and projection),
`transaction_service.dfy`, `transaction_controller.dfy`, `lock_service.dfy`,
`lock_aspect.dfy`, `engine.dfy`.

Names: error codes become constructors (`USER__ACCOUNT_UNMATCHED` is
`UserAccountUnmatched`, `ACCOUNT_ALREADY_UNREGISTERED` is
`AccountAlreadyUnregistered`, and so on). Statuses `IN_USE` / `UNREGISTERED`
are `InUse` / `Unregistered`.

## Behaviour of the code worth knowing

- Statuses are `IN_USE`/`UNREGISTERED`, and unregistering is one-way (`Domain.StatusIsOneWay`).
- A failed lock raises `ACCOUNT_TRANSACTION_LOCK`.
- An interrupted `tryLock` is swallowed. The guarded operation then runs
  without its key held (`LockAopAspect.GuardedOnlyWhenAcquired`). The aspect's
  `finally` still calls `unlock` for a lock this caller never obtained. The
  consequence of that unlock lies in the external lock library and is listed
  under "Left out".
- When the account is missing, the failure-recording step itself throws
  `ACCOUNT_NOT_FOUND`. That error replaces the original one, even an earlier
  `USER_NOT_FOUND`, and nothing is written.
- The service file names the debit entry point `saveTransaction`. Its callers
  and tests call it `useBalance`, and the model uses `UseBalance`.
- The error enum file lists only two codes. `ErrorCode` here holds every code
  the modelled files raise.

## Model

| member | source | states |
|---|---|---|
| Domain.UnRegister | Account/src/main/java/com/zero/account/domain/Account.java:42-45 | status becomes `Unregistered` and the closing time is stamped; id, owner, number, balance and registration time are unchanged |
| Domain.UseBalance | Account/src/main/java/com/zero/account/domain/Account.java:47-52 | fails `AmountExceedBalance` exactly when amount > balance (so amount = balance is accepted); on success only the balance changes, it drops by the amount and is never negative |
| Domain.CancelUseBalance | Account/src/main/java/com/zero/account/domain/Account.java:54-59 | fails `InvalidRequest` exactly when amount < 0; otherwise only the balance changes and it grows by the amount |
| Domain.PrimitivesPreserveValidity | Account/src/main/java/com/zero/account/domain/Account.java:47-59 | a non-negative balance stays non-negative after any successful debit or credit |
| Domain.UseThenCancelRestores | Account/src/main/java/com/zero/account/domain/Account.java:47-59 | debiting an amount in 0..balance and then crediting it back gives back the original account |
| Domain.NegativeDebitRaisesBalance | Account/src/main/java/com/zero/account/domain/Account.java:47-52 | the debit does not reject a negative amount, which raises the balance; only the request guard keeps such amounts out |
| Domain.StatusIsOneWay | Account/src/main/java/com/zero/account/domain/Account.java:42-59 | unregistering twice equals unregistering once at the later time; debit and credit never bring an unregistered account back |
| Ledger.ToTransactionDTO | Account/src/main/java/com/zero/account/dto/TransactionDTO.java:29-39 | the projection carries the account's number, and type, result, amount, snapshot, id and time unchanged |
| Ledger.ProjectionForgetsOnlyAccountDetails | Account/src/main/java/com/zero/account/dto/TransactionDTO.java:29-39 | two records project to the same object iff they differ only in account fields other than the number |
| TransactionService.ValidateUseBalance | Account/src/main/java/com/zero/account/service/TransactionService.java:50-64 | passes iff the user owns the account, it is in use, and balance ≥ amount; otherwise the first failing check, in the order owner, status, balance, names the error |
| TransactionService.SaveAndGetTransaction | Account/src/main/java/com/zero/account/service/TransactionService.java:75-89 | every record built has type `USE`, the given result, account, amount, id and time, and the account's current balance as snapshot |
| TransactionService.UseBalance | Account/src/main/java/com/zero/account/service/TransactionService.java:33-48 | succeeds iff the request is allowed; unknown user gives `UserNotFound` before the account is looked up, then `AccountNotFound`, then the validation errors in order; on success the account alone is debited and exactly one `USE`/`S` record with the post-debit snapshot is appended, and the projection returned matches it |
| TransactionService.SaveFailedUseTransaction | Account/src/main/java/com/zero/account/service/TransactionService.java:66-73 | fails `AccountNotFound` iff the number is unknown; otherwise only the ledger changes, by one `USE`/`F` record whose snapshot is the unchanged balance |
| TransactionService.ServicePreservesInvariants | Account/src/main/java/com/zero/account/service/TransactionService.java:33-89 | both paths keep accounts filed under their own numbers and balances non-negative, and write only `USE` records |
| TransactionService.UseNineHundredOfOneThousand | Account/src/test/java/com/zero/account/service/TransactionServiceTest.java:53-99 | balance 1000, use 900: balance 100, one record, snapshot 100 in the record and in the projection |
| TransactionController.UseBalance | Account/src/main/java/com/zero/account/controller/TransactionController.java:27-49 | succeeds iff the request is allowed, and then returns the service's receipt unchanged together with the service's new store; a failure with the account present appends one `USE`/`F` record and re-raises the pipeline's error; with the account missing nothing is written and `AccountNotFound` is raised; users and account numbers never change |
| TransactionController.UseFifteenHundredOfOneThousand | Account/src/main/java/com/zero/account/controller/TransactionController.java:39-48 | balance 1000, use 1500: `AmountExceedBalance`, balances unchanged, one `F` record with snapshot 1000 |
| TransactionController.CallAccounting | Account/src/main/java/com/zero/account/controller/TransactionController.java:32-48 | one call appends exactly one `USE` record when the account exists and none otherwise; that record's snapshot is the balance after the attempt and it is `S` iff the call succeeded; each balance drops by exactly its recorded successful debits |
| LockService.LockKey | Account/src/main/java/com/zero/account/service/LockService.java:42-44 | the key is `"ACLK:"` followed by the account number |
| LockService.LockKeyInjective | Account/src/main/java/com/zero/account/service/LockService.java:42-44 | two account numbers give the same key iff they are equal |
| LockService.Lock | Account/src/main/java/com/zero/account/service/LockService.java:20-35 | fails `AccountTransactionLock` iff `tryLock` reported false; acquired adds exactly the account's key; an interrupted wait returns normally with nothing added |
| LockService.Unlock | Account/src/main/java/com/zero/account/service/LockService.java:37-40 | the account's key is no longer held and every other held key still is |
| LockService.LockThenUnlockRestores | Account/src/main/java/com/zero/account/service/LockService.java:20-40 | lock and unlock address the same key: for a free key, lock then unlock leaves exactly the keys held before |
| LockAopAspect.AroundMethod | Account/src/main/java/com/zero/account/service/LockAopAspect.java:21-36 | lock is called first with the request's number; if it fails, nothing else happens and the error is raised; otherwise the operation runs once, unlock follows with the same number, and the operation's state and result (value or error) pass through unchanged |
| LockAopAspect.CallDiscipline | Account/src/main/java/com/zero/account/service/LockAopAspect.java:27-35 | lock is called once, first; the operation runs and unlock is called iff `lock` returns normally (`tryLock` acquired, or the wait was interrupted); unlock is the last call and uses the same number |
| LockAopAspect.KeyFreeAfterward | Account/src/main/java/com/zero/account/service/LockAopAspect.java:27-35 | if the key was free, the held keys afterwards are exactly those before, whatever `tryLock` said and whatever the operation did |
| LockAopAspect.GuardedOnlyWhenAcquired | Account/src/main/java/com/zero/account/service/LockService.java:24-34 | with a free key the operation runs with its key held iff `tryLock` acquired it; after an interrupted wait it runs unguarded |
| Engine.GuardedUse | Account/src/main/java/com/zero/account/controller/TransactionController.java:27-49 | under the guard, a failed lock leaves the store alone and raises `AccountTransactionLock`; otherwise the result is the endpoint's |
| Engine.Step | Account/src/main/java/com/zero/account/service/LockAopAspect.java:27-35 | one use-balance call (TransactionController.java:27-49) under the lock guard: a failed lock leaves the whole system unchanged; otherwise the endpoint runs and the key is released; accounts stay filed under their own numbers |
| Engine.Run | Account/src/main/java/com/zero/account/service/LockAopAspect.java:27-35 | guarded use-balance calls made one after another, each a `Step`; no calls leave the system unchanged, and accounts stay filed under their own numbers |
| Engine.StepIsGuardedUse | Account/src/main/java/com/zero/account/service/LockAopAspect.java:27-35 | the case-by-case step (lock fails: nothing changes; otherwise run the endpoint, then release the key) is exactly the store and held keys the lock guard produces around the endpoint |
| Engine.StepAccounting | Account/src/main/java/com/zero/account/service/LockAopAspect.java:27-35 | one guarded call writes one `USE` record iff it gets past the lock and finds its account, debits balances by exactly its successful record, and releases a key that was free |
| Engine.RunAudit | Account/src/main/java/com/zero/account/service/TransactionService.java:75-89 | over any sequence of guarded calls the ledger is only appended to, users and account numbers never change, and the number of new records equals the number of calls that got past the lock and found their account, all of type `USE` |
| Engine.RunKeepsBalancesNonNegative | Account/src/main/java/com/zero/account/domain/Account.java:47-52 | no sequence of guarded calls makes any balance negative |
| Engine.RunConservesBalance | Account/src/main/java/com/zero/account/service/TransactionService.java:43-47 | after any sequence of guarded calls, each account's balance plus the total of its new successful `USE` records equals its starting balance |
| Engine.RunReleasesLocks | Account/src/main/java/com/zero/account/service/LockAopAspect.java:27-35 | guarded calls on free keys, made one after another, leave the lock service holding exactly what it held before |

## Left out

- The cancel pipeline (`cancelBalance`, `saveFailedCancelTransaction`) and `queryTransaction`. The controller and the tests call them, but the transaction service does not define them.
- Account creation, closure and listing (quota of 10, next account number, zero balance before closure). The account service is a stub with a hard-coded number, and these rules appear only in tests.
- The lock service's wait (1 s) and lease (15 s) timeouts, reentrancy, and cross-thread and cross-process mutual exclusion. These belong to the external lock library. Calls are modelled one after another, so the concurrent scenarios are not modelled.
- LockAopAspect.AroundMethod: after an interrupted `tryLock` the model passes the operation's result through unchanged and drops the key from the held set, even when another caller holds it. In the source the `finally` unlock then acts on a lock this caller does not hold. The external lock library raises an error there, so the caller would see that error after the operation, and any debit, had already committed. That library is not part of this model.
- Engine.GuardedUse: inherits the same gap, because it is `LockAopAspect.AroundMethod` around the use-balance endpoint. After an interrupted `tryLock` its result is the endpoint's result, not the lock library's unlock error.
- Engine.Step: after an interrupted wait it removes the account's key from the held set even when another caller holds that key, where the source's `unlock` raises instead and the other caller keeps the key.
- LockService.Unlock: drops the key whether or not this caller holds it. The external library raises an error when a caller unlocks a lock it does not hold, and that library is not part of this model.
- The request guard (user id ≥ 1, account number not blank, amount 1..1,000,000,000). The model admits any amount. `Domain.NegativeDebitRaisesBalance` shows what the guard prevents.
- 64-bit `Long` overflow. Amounts and balances are unbounded integers. A credit near the top of the `Long` range would wrap in the source.
- The UUID token and `LocalDateTime.now()`. Both are inputs to each call. Token freshness is not modelled.
- Entity auditing timestamps (`createdAt`, `updatedAt`), logging, the 5-second sleep in the controller, the HTTP layer, the request/response objects and the global exception handler.
- Transaction rollback. Every failure in the pipeline happens before any write, so there is nothing to roll back.
- The `Transaction` entity file is not part of this model. Its fields are taken from the builder calls in the transaction service.
