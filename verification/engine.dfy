/**
 The balance engine as a whole: the use-balance endpoint run under the
 per-account lock guard, and sequences of such calls. The lemmas here state
 what holds after any number of guarded calls made one after another.
 */
module Engine {
  import opened Errors
  import opened Domain
  import opened Ledger
  import TransactionService
  import TransactionController
  import LockService
  import LockAopAspect

  /** The store together with the keys currently held in the lock service. */
  datatype System = System(store: TransactionService.Store, held: set<string>)

  /** One call: the request, what `tryLock` reports for it, and the token
      and time the environment hands out. */
  datatype Attempt = Attempt(request: TransactionController.UseRequest, lock: LockService.TryLockResult,
                             token: Token, now: Time)

  /** The use-balance endpoint under the lock guard. */
  function GuardedUse(sys: System, a: Attempt): (g: LockAopAspect.Guarded<TransactionService.Store, TransactionDTO>)
    ensures a.lock == LockService.NotAcquired ==>
              g.state == sys.store && g.result == Failure(AccountTransactionLock)
    ensures a.lock != LockService.NotAcquired ==>
              var r := TransactionController.UseBalance(sys.store, a.request, a.token, a.now);
              g.state == r.store && g.result == r.result
  {
    LockAopAspect.AroundMethod(sys.held, sys.store, a.request.accountNumber, a.lock, Proceed(a))
  }

  /** The guarded operation of one call: the use-balance endpoint applied to
      whatever store the guard hands it. */
  function Proceed(a: Attempt): TransactionService.Store -> (TransactionService.Store, Result<TransactionDTO>)
  {
    (s: TransactionService.Store) =>
      var r := TransactionController.UseBalance(s, a.request, a.token, a.now);
      (r.store, r.result)
  }

  /** Whether a call gets past the lock and finds its account, and hence
      leaves one record behind. */
  predicate Recorded(numbers: set<string>, a: Attempt) {
    a.lock != LockService.NotAcquired && a.request.accountNumber in numbers
  }

  /** The effect of one guarded call on the system, written out case by
      case; `StepIsGuardedUse` shows it is what the guard computes. */
  function Step(sys: System, a: Attempt): (r: System)
    requires TransactionService.WellKeyed(sys.store)
    ensures TransactionService.WellKeyed(r.store)
    ensures a.lock == LockService.NotAcquired ==> r == sys
    ensures a.lock != LockService.NotAcquired ==>
              && r.store == TransactionController.UseBalance(sys.store, a.request, a.token, a.now).store
              && LockService.LockKey(a.request.accountNumber) !in r.held
  {
    match LockService.Lock(sys.held, a.request.accountNumber, a.lock)
    case Failure(_) => sys
    case Success(locked) =>
      TransactionController.CallAccounting(sys.store, a.request, a.token, a.now);
      var r := TransactionController.UseBalance(sys.store, a.request, a.token, a.now);
      System(r.store, LockService.Unlock(locked, a.request.accountNumber))
  }

  lemma StepIsGuardedUse(sys: System, a: Attempt)
    requires TransactionService.WellKeyed(sys.store)
    ensures Step(sys, a) == System(GuardedUse(sys, a).state, GuardedUse(sys, a).held)
  {
  }

  /** The bookkeeping of one guarded call: how the ledger grows and how the
      successful debits it records account for the change in balances; and
      the lock is released again when its key was free. */
  lemma StepAccounting(sys: System, a: Attempt)
    requires TransactionService.WellKeyed(sys.store)
    ensures var r := Step(sys, a);
            && (TransactionService.BalancesNonNegative(sys.store) ==> TransactionService.BalancesNonNegative(r.store))
            && r.store.users == sys.store.users
            && r.store.accounts.Keys == sys.store.accounts.Keys
            && sys.store.ledger <= r.store.ledger
            && |r.store.ledger| == |sys.store.ledger| + (if Recorded(sys.store.accounts.Keys, a) then 1 else 0)
            && AllUse(r.store.ledger[|sys.store.ledger|..])
            && (forall n :: n in sys.store.accounts ==>
                 r.store.accounts[n].balance + SuccessfulUseTotal(r.store.ledger[|sys.store.ledger|..], n)
                   == sys.store.accounts[n].balance)
            && (LockService.LockKey(a.request.accountNumber) !in sys.held ==> r.held == sys.held)
  {
    var r := Step(sys, a);
    if a.lock == LockService.NotAcquired {
      assert r.store.ledger[|sys.store.ledger|..] == [];
    } else {
      TransactionController.CallAccounting(sys.store, a.request, a.token, a.now);
    }
  }

  /** A sequence of guarded calls made one after another. */
  function Run(sys: System, attempts: seq<Attempt>): (r: System)
    requires TransactionService.WellKeyed(sys.store)
    ensures TransactionService.WellKeyed(r.store)
    ensures |attempts| == 0 ==> r == sys
    decreases |attempts|
  {
    if |attempts| == 0 then sys
    else Run(Step(sys, attempts[0]), attempts[1..])
  }

  /** How many of `attempts` leave a record behind. */
  function RecordedCount(numbers: set<string>, attempts: seq<Attempt>): nat
    decreases |attempts|
  {
    if |attempts| == 0 then 0
    else (if Recorded(numbers, attempts[0]) then 1 else 0) + RecordedCount(numbers, attempts[1..])
  }

  /** The ledger is only ever appended to, users and the set of accounts
      never change, and exactly one record is written per call that gets
      past the lock and finds its account — every one of type `USE`. */
  lemma {:induction false} RunAudit(sys: System, attempts: seq<Attempt>)
    requires TransactionService.WellKeyed(sys.store)
    ensures var r := Run(sys, attempts);
            && r.store.users == sys.store.users
            && r.store.accounts.Keys == sys.store.accounts.Keys
            && sys.store.ledger <= r.store.ledger
            && |r.store.ledger| == |sys.store.ledger| + RecordedCount(sys.store.accounts.Keys, attempts)
            && AllUse(r.store.ledger[|sys.store.ledger|..])
    decreases |attempts|
  {
    if |attempts| == 0 {
      assert sys.store.ledger[|sys.store.ledger|..] == [];
    } else {
      var next := Step(sys, attempts[0]);
      StepAccounting(sys, attempts[0]);
      RunAudit(next, attempts[1..]);
      var r := Run(next, attempts[1..]);
      AddedSplits(next.store.ledger, r.store.ledger, |sys.store.ledger|);
      AllUseConcat(next.store.ledger[|sys.store.ledger|..], r.store.ledger[|next.store.ledger|..]);
    }
  }

  /** No sequence of guarded calls can make a balance negative. */
  lemma {:induction false} RunKeepsBalancesNonNegative(sys: System, attempts: seq<Attempt>)
    requires TransactionService.WellKeyed(sys.store)
    requires TransactionService.BalancesNonNegative(sys.store)
    ensures TransactionService.BalancesNonNegative(Run(sys, attempts).store)
    decreases |attempts|
  {
    if |attempts| > 0 {
      StepAccounting(sys, attempts[0]);
      RunKeepsBalancesNonNegative(Step(sys, attempts[0]), attempts[1..]);
    }
  }

  /** Conservation: after any sequence of guarded calls, each account's
      balance has gone down by exactly the total of the successful `USE`
      records written for it. */
  lemma {:induction false} RunConservesBalance(sys: System, attempts: seq<Attempt>, n: string)
    requires TransactionService.WellKeyed(sys.store)
    requires n in sys.store.accounts
    ensures var r := Run(sys, attempts);
            && sys.store.ledger <= r.store.ledger
            && n in r.store.accounts
            && r.store.accounts[n].balance + SuccessfulUseTotal(r.store.ledger[|sys.store.ledger|..], n)
                 == sys.store.accounts[n].balance
    decreases |attempts|
  {
    if |attempts| > 0 {
      var next := Step(sys, attempts[0]);
      StepAccounting(sys, attempts[0]);
      RunConservesBalance(next, attempts[1..], n);
      var r := Run(next, attempts[1..]);
      AddedSplits(next.store.ledger, r.store.ledger, |sys.store.ledger|);
      SuccessfulUseTotalConcat(next.store.ledger[|sys.store.ledger|..], r.store.ledger[|next.store.ledger|..], n);
    }
  }

  /** Run one after another, guarded calls whose keys were free leave the
      lock service holding exactly what it held before. */
  lemma {:induction false} RunReleasesLocks(sys: System, attempts: seq<Attempt>)
    requires TransactionService.WellKeyed(sys.store)
    requires forall i :: 0 <= i < |attempts| ==> LockService.LockKey(attempts[i].request.accountNumber) !in sys.held
    ensures Run(sys, attempts).held == sys.held
    decreases |attempts|
  {
    if |attempts| > 0 {
      var next := Step(sys, attempts[0]);
      StepAccounting(sys, attempts[0]);
      assert next.held == sys.held;
      forall i | 0 <= i < |attempts[1..]|
        ensures LockService.LockKey(attempts[1..][i].request.accountNumber) !in next.held
      {
        assert attempts[1..][i] == attempts[i + 1];
      }
      RunReleasesLocks(next, attempts[1..]);
    }
  }
}
