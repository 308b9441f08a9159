/**
 The use-balance pipeline: resolve the user and the account, validate in a
 fixed order, debit, and append one `USE` record to the ledger; and the
 failure-recording path that appends a `USE`/`F` record without touching the
 balance. The repositories are finite maps and the ledger is a sequence.
 */
module TransactionService {
  import opened Errors
  import opened Domain
  import opened Ledger

  /** The three repositories: users by id, accounts by account number, and
      the ledger of transaction records in the order they were saved. */
  datatype Store = Store(
    users: map<int, AccountUser>,
    accounts: map<string, Account>,
    ledger: seq<Transaction>)

  /** What a successful use returns: the updated store and the projection of
      the record it saved. */
  datatype Used = Used(store: Store, receipt: TransactionDTO)

  /** Every account is filed under its own account number. */
  predicate WellKeyed(store: Store) {
    forall n :: n in store.accounts ==> store.accounts[n].number == n
  }

  /** Every stored account has a non-negative balance. */
  predicate BalancesNonNegative(store: Store) {
    forall n :: n in store.accounts ==> ValidAccount(store.accounts[n])
  }

  /** The conditions under which a use request goes through, written out
      independently of the pipeline. */
  predicate UseAllowed(store: Store, userId: int, accountNumber: string, amount: int) {
    && userId in store.users
    && accountNumber in store.accounts
    && store.users[userId].id == store.accounts[accountNumber].owner.id
    && store.accounts[accountNumber].status == InUse
    && amount <= store.accounts[accountNumber].balance
  }

  /** Checks owner, then status, then balance; the first failing check
      names the error. `None` means the debit may go ahead. */
  function ValidateUseBalance(account: Account, user: AccountUser, amount: int): (r: Option<ErrorCode>)
    ensures r.None? <==> user.id == account.owner.id && account.status == InUse && amount <= account.balance
    ensures user.id != account.owner.id ==> r == Some(UserAccountUnmatched)
    ensures user.id == account.owner.id && account.status != InUse ==> r == Some(AccountAlreadyUnregistered)
    ensures user.id == account.owner.id && account.status == InUse && account.balance < amount ==>
              r == Some(AmountExceedBalance)
  {
    if user.id != account.owner.id then Some(UserAccountUnmatched)
    else if account.status != InUse then Some(AccountAlreadyUnregistered)
    else if account.balance < amount then Some(AmountExceedBalance)
    else None
  }

  /** Builds the `USE` record for `account` as it stands now: the snapshot is
      the account's current balance. */
  function SaveAndGetTransaction(resultType: TransactionResultType, account: Account, amount: int,
                                 token: Token, now: Time): (t: Transaction)
    ensures t.transactionType == Use
    ensures t.resultType == resultType && t.account == account && t.amount == amount
    ensures t.balanceSnapshot == account.balance
    ensures t.transactionId == token && t.transactedAt == now
  {
    Transaction(Use, resultType, account, amount, account.balance, token, now)
  }

  /** Uses `amount` of the balance of account `accountNumber` on behalf of
      user `userId`. On a failure nothing is written; on success the account
      is debited and exactly one `USE`/`S` record is appended whose snapshot
      is the balance after the debit. */
  function UseBalance(store: Store, userId: int, accountNumber: string, amount: int,
                      token: Token, now: Time): (r: Result<Used>)
    ensures r.Success? <==> UseAllowed(store, userId, accountNumber, amount)
    ensures userId !in store.users ==> r == Failure(UserNotFound)
    ensures userId in store.users && accountNumber !in store.accounts ==> r == Failure(AccountNotFound)
    ensures userId in store.users && accountNumber in store.accounts ==>
              var user := store.users[userId];
              var account := store.accounts[accountNumber];
              && (user.id != account.owner.id ==> r == Failure(UserAccountUnmatched))
              && (user.id == account.owner.id && account.status != InUse ==>
                    r == Failure(AccountAlreadyUnregistered))
              && (user.id == account.owner.id && account.status == InUse && account.balance < amount ==>
                    r == Failure(AmountExceedBalance))
    ensures r.Success? ==>
              var account := store.accounts[accountNumber];
              var debited := account.(balance := account.balance - amount);
              && r.value.store.users == store.users
              && r.value.store.accounts == store.accounts[accountNumber := debited]
              && r.value.store.ledger ==
                   store.ledger + [Transaction(Use, S, debited, amount, account.balance - amount, token, now)]
              && r.value.receipt ==
                   TransactionDTO(account.number, Use, S, amount, account.balance - amount, token, now)
  {
    if userId !in store.users then Failure(UserNotFound)
    else if accountNumber !in store.accounts then Failure(AccountNotFound)
    else
      var user := store.users[userId];
      var account := store.accounts[accountNumber];
      match ValidateUseBalance(account, user, amount)
      case Some(e) => Failure(e)
      case None =>
        // the account's own check cannot fail once validation has passed
        match Domain.UseBalance(account, amount)
        case Failure(e) => Failure(e)
        case Success(debited) =>
          var t := SaveAndGetTransaction(S, debited, amount, token, now);
          Success(Used(
            store.(accounts := store.accounts[accountNumber := debited], ledger := store.ledger + [t]),
            ToTransactionDTO(t)))
  }

  /** Records a failed use attempt: fails when the account number is unknown,
      and otherwise appends exactly one `USE`/`F` record whose snapshot is the
      account's unchanged balance. Users and accounts are untouched. */
  function SaveFailedUseTransaction(store: Store, accountNumber: string, amount: int,
                                    token: Token, now: Time): (r: Result<Store>)
    ensures r.Failure? <==> accountNumber !in store.accounts
    ensures r.Failure? ==> r.error == AccountNotFound
    ensures r.Success? ==>
              var account := store.accounts[accountNumber];
              r.value == store.(ledger := store.ledger + [Transaction(Use, F, account, amount, account.balance, token, now)])
  {
    if accountNumber !in store.accounts then Failure(AccountNotFound)
    else
      var t := SaveAndGetTransaction(F, store.accounts[accountNumber], amount, token, now);
      Success(store.(ledger := store.ledger + [t]))
  }

  /** Both paths of the service keep the store's invariants, and everything
      they write is of type `USE`. */
  lemma ServicePreservesInvariants(store: Store, userId: int, accountNumber: string, amount: int,
                                   token: Token, now: Time)
    requires WellKeyed(store) && BalancesNonNegative(store)
    ensures var r := UseBalance(store, userId, accountNumber, amount, token, now);
            r.Success? ==>
              && WellKeyed(r.value.store) && BalancesNonNegative(r.value.store)
              && AllUse(r.value.store.ledger[|store.ledger|..])
              && r.value.receipt.accountNumber == accountNumber
    ensures var r := SaveFailedUseTransaction(store, accountNumber, amount, token, now);
            r.Success? ==>
              && WellKeyed(r.value) && BalancesNonNegative(r.value)
              && AllUse(r.value.ledger[|store.ledger|..])
  {
  }

  /** The worked example: a balance of 1000 and a use of 900 leave 100, and
      the single record saved carries the snapshot 100. */
  lemma UseNineHundredOfOneThousand(user: AccountUser, account: Account, token: Token, now: Time)
    requires account.owner.id == user.id && account.status == InUse && account.balance == 1000
    ensures var store := Store(map[user.id := user], map[account.number := account], []);
            var r := UseBalance(store, user.id, account.number, 900, token, now);
            && r.Success?
            && r.value.store.accounts[account.number].balance == 100
            && |r.value.store.ledger| == 1
            && r.value.store.ledger[0].balanceSnapshot == 100
            && r.value.receipt.balanceSnapshot == 100
  {
  }
}
