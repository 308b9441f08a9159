/**
 The record-on-failure composition around the use-balance pipeline: a use
 that fails with a typed error is recorded as a failed `USE` attempt, and the
 error is then raised again.
 */
module TransactionController {
  import opened Errors
  import opened Domain
  import opened Ledger
  import TransactionService

  /** The body of a use request; its account number is also the lock id. */
  datatype UseRequest = UseRequest(userId: int, accountNumber: string, amount: int)

  /** The store after the call and what the caller sees. */
  datatype Response = Response(store: TransactionService.Store, result: Result<TransactionDTO>)

  /** Runs the pipeline; when it fails, records the failed attempt and
      re-raises the original error. When the account itself is missing the
      recording fails too: nothing is written and its `AccountNotFound`
      replaces the original error, even an earlier `UserNotFound`. */
  function UseBalance(store: TransactionService.Store, request: UseRequest, token: Token, now: Time): (r: Response)
    ensures r.result.Success? <==>
              TransactionService.UseAllowed(store, request.userId, request.accountNumber, request.amount)
    ensures r.store.users == store.users
    ensures r.store.accounts.Keys == store.accounts.Keys
    ensures request.accountNumber !in store.accounts ==> r == Response(store, Failure(AccountNotFound))
    ensures request.accountNumber in store.accounts && r.result.Failure? ==>
              var account := store.accounts[request.accountNumber];
              && r.store == store.(ledger := store.ledger +
                   [Transaction(Use, F, account, request.amount, account.balance, token, now)])
              && r.result == Failure(TransactionService.UseBalance(
                   store, request.userId, request.accountNumber, request.amount, token, now).error)
    ensures r.result.Success? ==>
              var account := store.accounts[request.accountNumber];
              && r.store.accounts == store.accounts[request.accountNumber :=
                   account.(balance := account.balance - request.amount)]
              && |r.store.ledger| == |store.ledger| + 1
              && r.store.ledger[|store.ledger|].resultType == S
    ensures r.result.Success? ==>
              var s := TransactionService.UseBalance(store, request.userId, request.accountNumber,
                                                     request.amount, token, now);
              s.Success? && r == Response(s.value.store, Success(s.value.receipt))
  {
    match TransactionService.UseBalance(store, request.userId, request.accountNumber, request.amount, token, now)
    case Success(used) => Response(used.store, Success(used.receipt))
    case Failure(e) =>
      match TransactionService.SaveFailedUseTransaction(store, request.accountNumber, request.amount, token, now)
      case Success(recorded) => Response(recorded, Failure(e))
      case Failure(recordingError) => Response(store, Failure(recordingError))
  }

  /** The worked failure example: a balance of 1000 and a use of 1500 fail
      with `AmountExceedBalance`, and the one record written is a failure
      whose snapshot is the unchanged 1000. */
  lemma UseFifteenHundredOfOneThousand(user: AccountUser, account: Account, token: Token, now: Time)
    requires account.owner.id == user.id && account.status == InUse && account.balance == 1000
    ensures var store := TransactionService.Store(map[user.id := user], map[account.number := account], []);
            var r := UseBalance(store, UseRequest(user.id, account.number, 1500), token, now);
            && r.result == Failure(AmountExceedBalance)
            && r.store.accounts == store.accounts
            && |r.store.ledger| == 1
            && r.store.ledger[0].resultType == F
            && r.store.ledger[0].balanceSnapshot == 1000
  {
  }

  /** The bookkeeping of one call: the store's invariants are kept, the
      ledger grows by exactly one `USE` record when the account exists and by
      none otherwise, that record's snapshot is the account's balance after
      the attempt, and the balance of every account drops by exactly the
      successful debits recorded for it. */
  lemma CallAccounting(store: TransactionService.Store, request: UseRequest, token: Token, now: Time)
    requires TransactionService.WellKeyed(store)
    ensures var r := UseBalance(store, request, token, now);
            && TransactionService.WellKeyed(r.store)
            && (TransactionService.BalancesNonNegative(store) ==> TransactionService.BalancesNonNegative(r.store))
            && store.ledger <= r.store.ledger
            && |r.store.ledger| == |store.ledger| + (if request.accountNumber in store.accounts then 1 else 0)
            && AllUse(r.store.ledger[|store.ledger|..])
            && (request.accountNumber in store.accounts ==>
                  var t := r.store.ledger[|store.ledger|];
                  && t.account.number == request.accountNumber
                  && t.amount == request.amount
                  && t.transactionId == token
                  && t.balanceSnapshot == r.store.accounts[request.accountNumber].balance
                  && (t.resultType == S <==> r.result.Success?))
            && forall n :: n in store.accounts ==>
                 r.store.accounts[n].balance + SuccessfulUseTotal(r.store.ledger[|store.ledger|..], n)
                   == store.accounts[n].balance
  {
    var r := UseBalance(store, request, token, now);
    var number := request.accountNumber;
    var added := r.store.ledger[|store.ledger|..];
    if number !in store.accounts {
      assert added == [];
    } else {
      var account := store.accounts[number];
      assert |added| == 1 && added == [added[0]];
      var t := added[0];
      assert t.transactionType == Use && t.account.number == number;
      forall n | n in store.accounts
        ensures r.store.accounts[n].balance + SuccessfulUseTotal(added, n) == store.accounts[n].balance
      {
        SuccessfulUseTotalSingle(t, n);
      }
    }
  }
}
