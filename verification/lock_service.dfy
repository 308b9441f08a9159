/**
 The per-account lock: the key derived from an account number, and the
 mapping of the external lock's answer to a typed error. The external lock
 service is a set of held keys; its `tryLock` answer is an oracle input.
 */
module LockService {
  import opened Errors

  const LockPrefix: string := "ACLK:"

  /** What one `tryLock` call (wait 1 s, lease 15 s) reported. */
  datatype TryLockResult =
    | Acquired
    | NotAcquired
    | Interrupted

  /** The key for an account number: the prefix followed by the number. */
  function LockKey(accountNumber: string): (key: string)
    ensures |key| == |LockPrefix| + |accountNumber|
    ensures key[..|LockPrefix|] == LockPrefix
    ensures key[|LockPrefix|..] == accountNumber
  {
    LockPrefix + accountNumber
  }

  /** Distinct account numbers never contend for the same key. */
  lemma LockKeyInjective(a: string, b: string)
    ensures LockKey(a) == LockKey(b) <==> a == b
  {
    if LockKey(a) == LockKey(b) {
      assert a == LockKey(a)[|LockPrefix|..];
    }
  }

  /** Takes the lock for `accountNumber`. A `tryLock` that reports failure
      raises `AccountTransactionLock`; an interrupted wait is swallowed, so
      the call returns normally without the key being held. */
  function Lock(held: set<string>, accountNumber: string, attempt: TryLockResult): (r: Result<set<string>>)
    ensures r.Failure? <==> attempt == NotAcquired
    ensures r.Failure? ==> r.error == AccountTransactionLock
    ensures attempt == Acquired ==> r == Success(held + {LockKey(accountNumber)})
    ensures attempt == Interrupted ==> r == Success(held)
  {
    match attempt
    case Acquired => Success(held + {LockKey(accountNumber)})
    case NotAcquired => Failure(AccountTransactionLock)
    case Interrupted => Success(held)
  }

  /** Releases the lock for `accountNumber`: its key is no longer held and
      no other key is affected. */
  function Unlock(held: set<string>, accountNumber: string): (h: set<string>)
    ensures LockKey(accountNumber) !in h
    ensures forall k :: k in held && k != LockKey(accountNumber) ==> k in h
    ensures h <= held
  {
    held - {LockKey(accountNumber)}
  }

  /** `Lock` and `Unlock` for one account number address the same key: a
      successful lock followed by an unlock of a key that was free gives
      back exactly the keys held before. */
  lemma LockThenUnlockRestores(held: set<string>, accountNumber: string, attempt: TryLockResult)
    requires LockKey(accountNumber) !in held
    requires attempt != NotAcquired
    ensures Lock(held, accountNumber, attempt).Success?
    ensures Unlock(Lock(held, accountNumber, attempt).value, accountNumber) == held
  {
  }
}
