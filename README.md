# Bookkeeping API: a Dafny model

A small personal-finance service records income and expense transactions
against categories and reports a summary (total income, total expense,
balance). Its whole behaviour lives in `app.js`: two SQLite tables
(`categories`, `transactions`, each with an AUTOINCREMENT primary key) and
eight HTTP route handlers. Each handler validates a JSON body, runs one or two
SQL statements and answers with a status code and a JSON body.

This project models those handlers as atomic steps of one `Store` object:

- `wrappers.dfy` (`Wrappers`): `Option`, for an absent or null request field
  and for a NULL column.
- `schema.dfy` (`Schema`): the row types of both tables. `Kind` has exactly
  the two values the `CHECK(type IN ('income', 'expense'))` constraint admits,
  so every stored category and transaction has a type in {income, expense}
  by construction. The module also says what it means for a table held as a
  map to be keyed by its primary key.
- `requests.dfy` (`Requests`): the request bodies, JavaScript truthiness of
  a field, and the validation guards of create/update transaction and
  create category. Also `description || ''`.
- `ledger.dfy` (`Ledger`): the summary. `Total` is the sum of amounts of one
  type, folded in ascending id order. `SqlSum` is SQL's `SUM`, which is NULL
  over no rows. `OrZero` is JavaScript's `x || 0`. The lemmas say how totals
  and the balance move when a row is inserted, replaced or deleted.
- `http.dfy` (`Http`): status codes, messages and the response body.
- `store.dfy` (`Bookkeeping`): the `Store` class. It has the two tables as
  maps, their two AUTOINCREMENT sequences, and a ghost set of every
  transaction id ever issued. Each handler is a method whose contract gives
  the response and the whole new state.
- `scenarios.dfy` (`Scenarios`): request sequences a client would issue. These
  include the end-to-end salary example, delete-twice, create-then-get, and
  the update that leaves a transaction naming a missing category.

Modelling decisions:

- Request fields are optional values of the JSON type each handler expects:
  `type`, `name` and `description` are strings, `category` is an integer and
  `amount` is an exact number. A field is truthy when it is present and not
  the type's falsy value, so `amount: 0`, `category: 0` and `name: ""` are
  refused like absent fields.
- Amounts and sums are Dafny `real`s: exact, where SQLite uses `REAL`
  floating point.
- An AUTOINCREMENT id is the table's sequence plus one. Ids are never reused,
  so a new transaction id is greater than every id ever issued, including
  ids of deleted rows.
- The server clock (`datetime('now')`) is a parameter `now` of the create
  handler.
- The path parameter `:id` is an integer.
- List results are sets of rows, because `SELECT *` fixes no order. Each row
  carries its own id, so the set has one row per key.

Asymmetries of the code that the model keeps:

- An update keeps the row's date: the `UPDATE` statement (app.js:119-124)
  sets only `type`, `category`, `amount` and `description`.
- The update handler does not check that the category exists, unlike create.
  The model reproduces this. `Scenarios.UpdateSkipsCategoryCheck` shows an
  update that leaves a transaction naming a missing category.
- An update stores the raw `description`: an absent one becomes NULL
  (`None`). Create stores `description || ''`. The model keeps this
  difference.

## Model

| member | source | states |
|---|---|---|
| `Schema.KindName` | app.js:25 | the stored text of a type is non-empty and parses back to that type, so the column's two values and the request check agree |
| `Schema.ParseKind` | app.js:57 | a request `type` names Income exactly when it is the string `'income'`, and Expense exactly when it is `'expense'`; anything else is no type |
| `Schema.KeyedRows` | app.js:82-84 | in a table keyed by primary key, every row returned by `SELECT *` is the row stored under its own id, and there are as many rows as keys |
| `Requests.CheckTransaction` | app.js:57-59 | using `Truthy` (JavaScript's `!x` on a field: absent, null, `""` and `0` are falsy), a transaction request is refused exactly when `type`, `category` or `amount` is falsy (absent, null, `""`, `0`) or `type` is neither income nor expense; otherwise the request's own type, non-zero category and non-zero amount are the result |
| `Requests.CheckCategory` | app.js:183-185 | using `Truthy` for `!name`, a category request is refused exactly when `name` is falsy or `type` is neither income nor expense; otherwise its non-empty name and type are the result |
| `Requests.OrEmpty` | app.js:71 | the `description`-or-empty default keeps a truthy description and turns an absent, null or empty one into `""` |
| `Requests.CheckTransactionRoundTrip` | app.js:114 | any request carrying a type name, a non-zero category and a non-zero amount validates back to exactly those fields, whatever its description |
| `Ledger.TotalRemove` | app.js:159 | the sum over a table equals one row's contribution plus the sum over the rest, for any row: `SUM` does not depend on scan order |
| `Ledger.TotalInsert` | app.js:159-160 | inserting a row under a fresh key adds its amount to the total of its type and nothing to the other |
| `Ledger.TotalReplace` | app.js:159-160 | replacing a row swaps its old contribution to the total for the new one |
| `Ledger.TotalOfAbsentKind` | app.js:165-166 | with no row of a type, that type's total is 0 |
| `Ledger.SqlSum` | app.js:159-163 | `SUM(amount) ... WHERE type = k` is NULL exactly when no row has type k, and then the total is 0; otherwise it is `Total(rows, k)`, the reference fold that adds the amounts of the rows of type k in ascending id order |
| `Ledger.OrZero` | app.js:165-166 | JavaScript's `x`-or-0 reads a NULL sum as 0 and every number, 0 included, as itself |
| `Ledger.BalanceAfterInsert` | app.js:167 | a new transaction moves the balance by its amount, up for income and down for expense |
| `Ledger.BalanceAfterDelete` | app.js:167 | deleting a transaction takes its signed amount back off the balance |
| `Ledger.BalanceAfterUpdate` | app.js:167 | updating a transaction replaces its old signed amount in the balance by the new one |
| `Bookkeeping.Store.constructor` | app.js:21-37 | a new database has both tables empty, both sequences at 0 and no transaction id issued |
| `Bookkeeping.Store.CreateTransaction` | app.js:54-76 | invalid data gives 400 "Invalid transaction data" and an unknown category gives 400 "Category does not exist", both with no change. Otherwise it gives 201 with id = sequence + 1; that id was never issued and is greater than every id ever issued. The new row holds the request's type, category and amount, date `now` and the description defaulted to `''`, and nothing else changes. If every transaction named an existing category before, that still holds |
| `Bookkeeping.Store.ListTransactions` | app.js:80-88 | 200 with exactly the stored transactions, one per id |
| `Bookkeeping.Store.GetTransaction` | app.js:91-106 | 200 with the row stored under the id when there is one, its id being the requested one; 404 "Transaction not found" exactly when there is none |
| `Bookkeeping.Store.UpdateTransaction` | app.js:110-134 | invalid data gives 400 and changes nothing. For an existing id it gives 200 and overwrites type, category, amount and the raw description; date and id are kept and the category is not checked. For a missing id it gives 404 and changes nothing. The category table, the sequences and the set of keys never change |
| `Bookkeeping.Store.DeleteTransaction` | app.js:138-153 | for an existing id it gives 200 and removes exactly that row; otherwise 404 with no change; no other row, table or sequence changes |
| `Bookkeeping.Store.GetSummary` | app.js:157-177 | 200 with the income total and the expense total (each 0 when no row has that type) and `balance = totalIncome - totalExpense` |
| `Bookkeeping.Store.CreateCategory` | app.js:180-194 | a falsy name or bad type gives 400 "Invalid category data" with no change; otherwise it gives 201, inserts `{name, type}` under id = sequence + 1 (greater than every existing id) and leaves transactions alone |
| `Bookkeeping.Store.ListCategories` | app.js:197-205 | 200 with exactly the stored categories, one per id |
| `Scenarios.SalaryScenario` | app.js:183-190 | on a new database, category "Salary"/income gets id 1, an income transaction of 5000 in it gets id 1, and the summary is 5000 / 0 / 5000 |
| `Scenarios.UpdateSkipsCategoryCheck` | app.js:114-127 | updating a transaction to category 99, which does not exist, succeeds with 200 and leaves the transaction naming a missing category |
| `Scenarios.DeleteTwice` | app.js:143-149 | deleting an id twice gives 200 then 404 when the row existed, and 404 otherwise; only that row goes |
| `Scenarios.CreateThenGet` | app.js:66-72 | after a successful create, getting the returned id yields the submitted type, category and amount, the server's date and the defaulted description; create succeeds exactly when the data is valid and the category exists |
| `Scenarios.CreateMovesBalance` | app.js:71 | a successful create moves the balance by the signed amount; a refused one leaves it unchanged |
| `Scenarios.DeleteMovesBalance` | app.js:143 | a delete that removes a row takes its signed amount off the balance; one that removes nothing leaves it unchanged |

## Left out

- Express setup, CORS, JSON body parsing, the listener on port 3000 and the start-up exit on database failure (app.js:1-50) are process plumbing.
- Asynchrony and interleaving: each handler is one atomic step on the store.
- The 500 paths: any failure from the SQLite driver is foreign-library behaviour, so no handler models it.
- A failure of the category lookup in create (app.js:61) is also not modelled. It sits outside the `try` block, so the rejection is unhandled; what the client sees depends on the Express and Node versions.
- `REAL` floating point for `amount` and `SUM` is not modelled: amounts are exact.
- The row order of `SELECT *` is not modelled; lists are sets.
- The value of the clock is not modelled; it is the parameter `now`.
- Request fields of a JSON type other than the one the handler expects are not modelled. Examples are a numeric `type`, a string or boolean `category`, or a string `amount`. SQLite would coerce or store them by column affinity.
- A non-integer numeric `category` such as `1.5` is not modelled. It is truthy, so create answers 400 "Category does not exist" (app.js:61-63) and update stores the fraction.
- Non-numeric path ids are not modelled. They match no row, as an absent integer id does.
- The declared FOREIGN KEY is not modelled. SQLite leaves it unenforced by default and the code does not rely on it.
- A restart is not modelled. `expense.db` (app.js:12) persists, and `CREATE TABLE IF NOT EXISTS` (app.js:22, 28) keeps earlier rows and `sqlite_sequence`. A restart therefore resumes from the stored state, not from the constructor's empty one. The handlers' contracts hold from any state satisfying `Store.Valid()`, so they cover a resumed database too.
- The 64-bit limit of AUTOINCREMENT ids is not modelled: ids are unbounded integers.
