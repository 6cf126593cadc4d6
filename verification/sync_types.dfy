/** Model of internal/sync/types/types.go (older generation): transaction kind,
    currency with an optional rate, and the parsed transaction. */
module SyncTypes {
  import TypesTransaction
  import GoInts
  import opened Wrappers

  /** The transaction kind: the same `int8` enum, names and validity as the
      `types` package's, so it is that definition. */
  type TransactionType = TypesTransaction.TransactionType

  const Expense: TransactionType := TypesTransaction.Expense
  const Income: TransactionType := TypesTransaction.Income
  const Transaction: TransactionType := TypesTransaction.Transaction

  /** `Currency` wraps a toshl currency: a code and a pointer to a rate (hundredths). */
  datatype Currency = Currency(code: string, rate: Option<int>)

  /** `TransactionInfo` of this generation: `kind` is the `TransactionType`
      field, `action` the free-text `Type` field. */
  datatype TransactionInfo = TransactionInfo(
    msgId: GoInts.Uint32,
    kind: TransactionType,
    action: string,
    place: string,
    value: Currency,
    account: string,
    date: int)
}
