/**
 The account entity: an owner, an account number, a status and a balance,
 with its three state-changing primitives (debit, credit, unregister).
 */
module Domain {
  import opened Errors

  /** A point in time, as handed out by the clock (which is not modelled). */
  type Time = int

  datatype AccountStatus = InUse | Unregistered

  datatype AccountUser = AccountUser(id: int, name: string)

  datatype Account = Account(
    id: int,
    owner: AccountUser,
    number: string,
    status: AccountStatus,
    balance: int,
    registeredAt: Option<Time>,
    unRegisteredAt: Option<Time>)

  /** The entity invariant the rest of the engine relies on. */
  predicate ValidAccount(a: Account) {
    a.balance >= 0
  }

  /** Two accounts that differ at most in their balance. */
  predicate SameButBalance(a: Account, b: Account) {
    a == b.(balance := a.balance)
  }

  /** Closes the account: the status becomes `Unregistered` and the closing
      time is stamped; nothing else changes. There is no precondition. */
  function UnRegister(a: Account, now: Time): (r: Account)
    ensures r.status == Unregistered
    ensures r.unRegisteredAt == Some(now)
    ensures r.id == a.id && r.owner == a.owner && r.number == a.number
    ensures r.balance == a.balance && r.registeredAt == a.registeredAt
  {
    a.(status := Unregistered, unRegisteredAt := Some(now))
  }

  /** Debits `amount`. Fails when the amount is greater than the balance;
      an amount equal to the balance is accepted and leaves zero. The
      method itself does not reject a negative amount. */
  function UseBalance(a: Account, amount: int): (r: Result<Account>)
    ensures r.Failure? <==> amount > a.balance
    ensures r.Failure? ==> r.error == AmountExceedBalance
    ensures r.Success? ==> SameButBalance(a, r.value) && r.value.balance + amount == a.balance
    ensures r.Success? ==> r.value.balance >= 0
  {
    if amount > a.balance then Failure(AmountExceedBalance)
    else Success(a.(balance := a.balance - amount))
  }

  /** Credits `amount` back. Fails on a negative amount. */
  function CancelUseBalance(a: Account, amount: int): (r: Result<Account>)
    ensures r.Failure? <==> amount < 0
    ensures r.Failure? ==> r.error == InvalidRequest
    ensures r.Success? ==> SameButBalance(a, r.value) && r.value.balance == a.balance + amount
    ensures r.Success? ==> r.value.balance >= a.balance
  {
    if amount < 0 then Failure(InvalidRequest)
    else Success(a.(balance := a.balance + amount))
  }

  /** Neither balance primitive can make a valid account invalid, whatever
      the amount. */
  lemma PrimitivesPreserveValidity(a: Account, amount: int)
    requires ValidAccount(a)
    ensures UseBalance(a, amount).Success? ==> ValidAccount(UseBalance(a, amount).value)
    ensures CancelUseBalance(a, amount).Success? ==> ValidAccount(CancelUseBalance(a, amount).value)
  {
  }

  /** A debit that is later cancelled with the same amount restores the
      original account exactly. */
  lemma UseThenCancelRestores(a: Account, amount: int)
    requires 0 <= amount <= a.balance
    ensures UseBalance(a, amount).Success?
    ensures CancelUseBalance(UseBalance(a, amount).value, amount) == Success(a)
  {
  }

  /** Why the request guard (amount at least 1) matters: a negative amount
      passes the debit's only check and raises the balance. */
  lemma NegativeDebitRaisesBalance(a: Account, amount: int)
    requires ValidAccount(a) && amount < 0
    ensures UseBalance(a, amount).Success?
    ensures UseBalance(a, amount).value.balance > a.balance
  {
  }

  /** The status only moves one way: no primitive takes an unregistered
      account back to `InUse`, and unregistering twice is the same as
      unregistering once at the later time. */
  lemma StatusIsOneWay(a: Account, amount: int, t1: Time, t2: Time)
    ensures UnRegister(UnRegister(a, t1), t2) == UnRegister(a, t2)
    ensures a.status == Unregistered && UseBalance(a, amount).Success? ==>
              UseBalance(a, amount).value.status == Unregistered
    ensures a.status == Unregistered && CancelUseBalance(a, amount).Success? ==>
              CancelUseBalance(a, amount).value.status == Unregistered
  {
  }
}
