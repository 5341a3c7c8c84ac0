/**
 * What a handler sends back: a status code and a JSON body, with the status
 * codes and messages the handlers use.
 */
module Http {
  import opened Schema
  import opened Ledger

  const OK: int := 200
  const CREATED: int := 201
  const BAD_REQUEST: int := 400
  const NOT_FOUND: int := 404

  const INVALID_TRANSACTION: string := "Invalid transaction data"
  const UNKNOWN_CATEGORY: string := "Category does not exist"
  const TRANSACTION_NOT_FOUND: string := "Transaction not found"
  const TRANSACTION_UPDATED: string := "Transaction updated successfully"
  const TRANSACTION_DELETED: string := "Transaction deleted successfully"
  const INVALID_CATEGORY: string := "Invalid category data"

  /**
   * The JSON body: `{id}`, `{message}`, `{error}`, one row, every row of a
   * table (as a set: `SELECT *` promises no order), or the summary.
   */
  datatype Body =
    | Created(id: int)
    | Message(message: string)
    | Error(error: string)
    | TransactionRow(row: Transaction)
    | TransactionRows(rows: set<Transaction>)
    | CategoryRows(categories: set<Category>)
    | Totals(summary: Summary)

  datatype Response = Response(status: int, body: Body)
}
