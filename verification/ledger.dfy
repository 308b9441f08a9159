/**
 The transaction record written to the ledger for every balance attempt,
 and the transfer object projected from it.
 */
module Ledger {
  import opened Domain

  /** The opaque transaction identifier (a hyphen-free UUID in the source,
      supplied by the caller here). */
  type Token = string

  datatype TransactionType = Use | Cancel

  /** `S` for a successful attempt, `F` for a failed one. */
  datatype TransactionResultType = S | F

  datatype Transaction = Transaction(
    transactionType: TransactionType,
    resultType: TransactionResultType,
    account: Account,
    amount: int,
    balanceSnapshot: int,
    transactionId: Token,
    transactedAt: Time)

  datatype TransactionDTO = TransactionDTO(
    accountNumber: string,
    transactionType: TransactionType,
    resultType: TransactionResultType,
    amount: int,
    balanceSnapshot: int,
    transactionId: Token,
    transactedAt: Time)

  /** Projects a ledger record: the account is reduced to its number and
      every other field is copied unchanged. */
  function ToTransactionDTO(t: Transaction): (d: TransactionDTO)
    ensures d.accountNumber == t.account.number
    ensures d.transactionType == t.transactionType && d.resultType == t.resultType
    ensures d.amount == t.amount && d.balanceSnapshot == t.balanceSnapshot
    ensures d.transactionId == t.transactionId && d.transactedAt == t.transactedAt
  {
    TransactionDTO(t.account.number, t.transactionType, t.resultType,
                   t.amount, t.balanceSnapshot, t.transactionId, t.transactedAt)
  }

  /** What the projection forgets: two records have the same projection
      exactly when they differ at most in the account details other than
      its number. */
  lemma ProjectionForgetsOnlyAccountDetails(t1: Transaction, t2: Transaction)
    ensures ToTransactionDTO(t1) == ToTransactionDTO(t2) <==>
              && t1.account.number == t2.account.number
              && t1 == t2.(account := t1.account)
  {
  }

  /** The total debited from account `number` by the successful `USE`
      records of `records`. */
  function SuccessfulUseTotal(records: seq<Transaction>, number: string): int
  {
    if |records| == 0 then 0
    else
      var t := records[0];
      (if t.transactionType == Use && t.resultType == S && t.account.number == number
       then t.amount else 0)
      + SuccessfulUseTotal(records[1..], number)
  }

  lemma {:induction false} SuccessfulUseTotalConcat(a: seq<Transaction>, b: seq<Transaction>, number: string)
    ensures SuccessfulUseTotal(a + b, number) == SuccessfulUseTotal(a, number) + SuccessfulUseTotal(b, number)
    decreases |a|
  {
    if |a| > 0 {
      assert (a + b)[1..] == a[1..] + b;
      SuccessfulUseTotalConcat(a[1..], b, number);
    } else {
      assert a + b == b;
    }
  }

  lemma SuccessfulUseTotalSingle(t: Transaction, number: string)
    ensures SuccessfulUseTotal([t], number) ==
              if t.transactionType == Use && t.resultType == S && t.account.number == number then t.amount else 0
  {
    assert [t][1..] == [];
  }

  /** Every record in `records` is of type `USE`. */
  predicate AllUse(records: seq<Transaction>) {
    forall i :: 0 <= i < |records| ==> records[i].transactionType == Use
  }

  /** The records written after position `k` of a ledger that grew from
      `earlier` are those `earlier` added, followed by those added since. */
  lemma AddedSplits(earlier: seq<Transaction>, later: seq<Transaction>, k: nat)
    requires k <= |earlier| && earlier <= later
    ensures later[k..] == earlier[k..] + later[|earlier|..]
  {
  }

  lemma AllUseConcat(a: seq<Transaction>, b: seq<Transaction>)
    requires AllUse(a) && AllUse(b)
    ensures AllUse(a + b)
  {
  }
}
