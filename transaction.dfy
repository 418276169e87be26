/**
 * The transaction type of infrastructure/repository/transaction/transaction.go: a
 * transaction is a debit or a credit by its exact type string.
 */
module TransactionType {
  const Debit := "DEBIT"
  const Credit := "CREDIT"

  /** `IsDebit`: the type is exactly "DEBIT" (no case folding, no trimming). */
  predicate IsDebit(kind: string)
  {
    kind == Debit
  }

  /** `IsCredit`: the type is exactly "CREDIT". */
  predicate IsCredit(kind: string)
  {
    kind == Credit
  }

  /** A type is a debit exactly when it is "DEBIT", a credit exactly when it is "CREDIT", never both. */
  lemma DebitOrCreditNotBoth(kind: string)
    ensures !(IsDebit(kind) && IsCredit(kind))
    ensures IsDebit(kind) <==> kind == "DEBIT"
    ensures IsCredit(kind) <==> kind == "CREDIT"
  {
  }

  /**
   * The tested cases: "DEBIT" is a debit, "CREDIT" a credit, "OTHER" neither;
   * the lower-case "debit" and "credit" are an added check that the
   * comparison is case-sensitive.
   */
  lemma KnownTypes()
    ensures IsDebit("DEBIT") && !IsCredit("DEBIT")
    ensures IsCredit("CREDIT") && !IsDebit("CREDIT")
    ensures !IsDebit("OTHER") && !IsCredit("OTHER")
    ensures !IsDebit("debit") && !IsCredit("credit")
  {
    assert "OTHER"[0] != Debit[0] && "OTHER"[0] != Credit[0];
    assert "debit"[0] != Debit[0] && "credit"[0] != Credit[0];
  }
}
