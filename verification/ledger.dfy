/** The ledger's shared record types: a transaction as the backend stores
    it and as the client receives it. */
module Ledger {

  datatype Option<+T> = None | Some(value: T)

  /** The `type` column. Its CHECK constraint names these three, but a CHECK
      lets NULL through. A NULL type takes the same branches as `transfer`
      everywhere in this model: the backend loop subtracts it, the forecast
      does not count it as spending, and the chart and the recent list show
      it as money out. So the model represents it as Transfer. */
  datatype TxType = Income | Expense | Transfer

  /** One transaction row as the client receives it. Money is an integer
      number of shillings; the creation instant is in milliseconds since the
      epoch. None stands for a missing, `null` or unparseable `created_at`:
      the client reads `null` as the epoch and the other two as an invalid
      date, and both fall outside the chart's window. `rawText` None or ""
      is the falsy case that makes the client fall back to `description`. */
  datatype Transaction = Transaction(
    id: string,
    kind: TxType,
    amount: int,
    category: string,
    description: string,
    rawText: Option<string>,
    createdAt: Option<int>)
}
