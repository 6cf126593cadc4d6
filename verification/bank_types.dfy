/** Model of internal/bank/banktypes/types.go: the message a bank parses, the
    transaction kind, and the parsed transaction. */
module BankTypes {
  import opened GoInts
  import opened Wrappers
  import Currency

  type TrxType = Int8

  const Expense: TrxType := 0
  const Income: TrxType := 1
  const Transaction: TrxType := 2

  /** `TrxType.String`. */
  function String(t: TrxType): (s: string)
    ensures t == Expense <==> s == "expense"
    ensures t == Income <==> s == "income"
    ensures t == Transaction <==> s == "transaction"
    ensures !(0 <= t <= 2) <==> s == "undefined"
  {
    if t == Expense then "expense"
    else if t == Income then "income"
    else if t == Transaction then "transaction"
    else "undefined"
  }

  /** The `Message` interface: id, sender and recipient addresses, subject, date (seconds), body text. */
  datatype Message = Message(id: Uint32, from: seq<string>, to: seq<string>, subject: string, date: int, body: string)

  /** `TrxInfo`.  The bank delegate is represented by its name; the origin
      message is optional because the parser may leave it unset (nil). */
  datatype TrxInfo = TrxInfo(
    date: int,
    bank: string,
    action: string,
    description: string,
    account: string,
    value: Currency.Amount,
    correlationId: Uint32,
    originMessage: Option<Message>,
    kind: TrxType)
}
