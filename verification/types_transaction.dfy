/** Model of internal/types/transaction.go: the transaction-kind enum and the
    transaction record of the `types` package. */
module TypesTransaction {
  import opened GoInts
  import Currency

  /** `TransactionType` is an `int8`; the three kinds are its first values. */
  type TransactionType = Int8

  const Expense: TransactionType := 0
  const Income: TransactionType := 1
  const Transaction: TransactionType := 2

  /** `TransactionType.String`. */
  function String(t: TransactionType): (s: string)
    ensures t == Expense <==> s == "expense"
    ensures t == Income <==> s == "income"
    ensures t == Transaction <==> s == "transaction"
    ensures !(0 <= t <= 2) <==> s == "undefined"
  {
    if t == Expense then "expense"
    else if t == Income then "income"
    else if t == Transaction then "transaction"
    else "undefined"
  }

  /** `IsValid`: the name is not "undefined". */
  function IsValid(t: TransactionType): (b: bool)
    ensures b <==> 0 <= t <= 2
  {
    String(t) != "undefined"
  }

  /** Distinct valid kinds have distinct names. */
  lemma StringInjective(a: TransactionType, b: TransactionType)
    requires IsValid(a) && IsValid(b) && String(a) == String(b)
    ensures a == b
  {
  }

  /** `TransactionInfo`; the bank delegate is represented by its name, dates are instants in seconds. */
  datatype TransactionInfo = TransactionInfo(
    bank: string,
    kind: TransactionType,
    msgId: GoInts.Uint32,
    action: string,
    place: string,
    value: Currency.Amount,
    account: string,
    date: int)
}
