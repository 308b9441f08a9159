/**
 The guard around every lock-annotated operation: lock, then proceed, then
 unlock in a `finally`. The lock call sits outside the `try`, so a lock
 failure skips both the operation and the unlock. `proceed` is any function
 of the guarded state; the calls the guard makes are recorded as events.
 */
module LockAopAspect {
  import opened Errors
  import LockService

  datatype Event =
    | LockCalled(accountNumber: string)
    | Proceeded(keyHeld: bool)
    | UnlockCalled(accountNumber: string)

  /** The held keys and the guarded state after the call, what the caller
      sees, and the calls the guard made in order. `Proceeded` records
      whether the account's key was held while the operation ran. */
  datatype Guarded<S, T> = Guarded(held: set<string>, state: S, result: Result<T>, events: seq<Event>)

  function AroundMethod<S, T>(held: set<string>, state: S, accountNumber: string,
                              attempt: LockService.TryLockResult,
                              proceed: S -> (S, Result<T>)): (g: Guarded<S, T>)
    ensures |g.events| > 0 && g.events[0] == LockCalled(accountNumber)
    ensures attempt == LockService.NotAcquired ==>
              && g.events == [LockCalled(accountNumber)]
              && g.held == held && g.state == state
              && g.result == Failure(AccountTransactionLock)
    ensures attempt != LockService.NotAcquired ==>
              && g.events == [LockCalled(accountNumber),
                              Proceeded(LockService.LockKey(accountNumber) in LockService.Lock(held, accountNumber, attempt).value),
                              UnlockCalled(accountNumber)]
              && g.state == proceed(state).0
              && g.result == proceed(state).1
              && g.held == LockService.Unlock(LockService.Lock(held, accountNumber, attempt).value, accountNumber)
  {
    match LockService.Lock(held, accountNumber, attempt)
    case Failure(e) => Guarded(held, state, Failure(e), [LockCalled(accountNumber)])
    case Success(locked) =>
      var (state', result) := proceed(state);
      Guarded(LockService.Unlock(locked, accountNumber), state', result,
              [LockCalled(accountNumber), Proceeded(LockService.LockKey(accountNumber) in locked),
               UnlockCalled(accountNumber)])
  }

  /** Lock is called exactly once with the request's account number; unlock
      is called exactly once with the same number if and only if `lock`
      returns normally (`tryLock` acquired, or the wait was interrupted), and
      it is always the last call. This restates the event
      list of `AroundMethod`'s contract as properties of the calls; the
      behavioural content (state, result and held keys) is in that contract
      and in `KeyFreeAfterward`. */
  lemma CallDiscipline<S, T>(held: set<string>, state: S, accountNumber: string,
                             attempt: LockService.TryLockResult, proceed: S -> (S, Result<T>))
    ensures var g := AroundMethod(held, state, accountNumber, attempt, proceed);
            && (forall i :: 0 <= i < |g.events| && g.events[i].LockCalled? ==> i == 0)
            && (forall i :: 0 <= i < |g.events| && g.events[i].UnlockCalled? ==>
                  i == |g.events| - 1 && g.events[i].accountNumber == accountNumber)
            && ((exists i :: 0 <= i < |g.events| && g.events[i].UnlockCalled?) <==>
                  attempt != LockService.NotAcquired)
            && ((exists i :: 0 <= i < |g.events| && g.events[i].Proceeded?) <==>
                  attempt != LockService.NotAcquired)
  {
    var g := AroundMethod(held, state, accountNumber, attempt, proceed);
    if attempt != LockService.NotAcquired {
      assert g.events[2].UnlockCalled?;
      assert g.events[1].Proceeded?;
    }
  }

  /** If the key was free, the guard leaves exactly the keys that were held
      before, whatever the operation returned and whatever `tryLock` said. */
  lemma KeyFreeAfterward<S, T>(held: set<string>, state: S, accountNumber: string,
                               attempt: LockService.TryLockResult, proceed: S -> (S, Result<T>))
    requires LockService.LockKey(accountNumber) !in held
    ensures AroundMethod(held, state, accountNumber, attempt, proceed).held == held
  {
    if attempt != LockService.NotAcquired {
      LockService.LockThenUnlockRestores(held, accountNumber, attempt);
    }
  }

  /** An interrupted wait is swallowed by the lock service, so the operation
      still runs, but with its key free: only an acquired lock guards it. */
  lemma GuardedOnlyWhenAcquired<S, T>(held: set<string>, state: S, accountNumber: string,
                                      attempt: LockService.TryLockResult, proceed: S -> (S, Result<T>))
    requires LockService.LockKey(accountNumber) !in held
    requires attempt != LockService.NotAcquired
    ensures var g := AroundMethod(held, state, accountNumber, attempt, proceed);
            g.events[1] == Proceeded(attempt == LockService.Acquired)
  {
  }
}
