/**
 * Request sequences against the store, as a client would issue them, with
 * what the handlers' contracts let a caller conclude.
 */
module Scenarios {
  import opened Wrappers
  import opened Schema
  import opened Requests
  import opened Ledger
  import opened Http
  import opened Bookkeeping

  /**
   * On a new database: create category `{name: "Salary", type: "income"}`,
   * then transaction `{type: "income", category: 1, amount: 5000}`, then ask
   * for the summary.
   */
  method SalaryScenario(now: string) returns (category: Response, transaction: Response, summary: Response)
    ensures category == Response(CREATED, Created(1))
    ensures transaction == Response(CREATED, Created(1))
    ensures summary == Response(OK, Totals(Summary(5000.0, 0.0, 5000.0)))
  {
    var s := new Store();
    var salary := CategoryRequest(Some("Salary"), Some("income"));
    assert CheckCategory(salary) == Some(CategoryData("Salary", Income));
    category := s.CreateCategory(salary);
    assert 1 in s.categories;
    var income := TransactionRequest(Some("income"), Some(1), Some(5000.0), None);
    assert CheckTransaction(income) == Some(TransactionData(Income, 1, 5000.0));
    transaction := s.CreateTransaction(income, now);
    var t := Transaction(1, Income, 1, 5000.0, now, Some(""));
    assert s.transactions == map[][1 := t];
    TotalInsert(map[], Income, t);
    TotalInsert(map[], Expense, t);
    summary := s.GetSummary();
  }

  /**
   * The update handler does not look the category up: on a new database
   * with one category and one transaction, moving the transaction to
   * category 99 succeeds and leaves it naming a category that does not exist.
   */
  method UpdateSkipsCategoryCheck(now: string) returns (updated: Response, row: Response, dangling: bool)
    ensures updated == Response(OK, Message(TRANSACTION_UPDATED))
    ensures row == Response(OK, TransactionRow(Transaction(1, Expense, 99, 12.5, now, None)))
    ensures dangling
  {
    var s := new Store();
    var c := s.CreateCategory(CategoryRequest(Some("Rent"), Some("expense")));
    var t := s.CreateTransaction(
      TransactionRequest(Some("expense"), Some(1), Some(12.5), Some("March")), now);
    updated := s.UpdateTransaction(1, TransactionRequest(Some("expense"), Some(99), Some(12.5), None));
    row := s.GetTransaction(1);
    dangling := !s.ReferencesResolved();
  }

  /** Deleting the same id twice: 200 then 404 when the row existed, 404 both times otherwise. */
  method DeleteTwice(s: Store, id: int) returns (first: Response, second: Response)
    requires s.Valid()
    modifies s
    ensures s.Valid()
    ensures first.status == (if id in old(s.transactions) then OK else NOT_FOUND)
    ensures second == Response(NOT_FOUND, Error(TRANSACTION_NOT_FOUND))
    ensures s.transactions == old(s.transactions) - {id}
  {
    first := s.DeleteTransaction(id);
    second := s.DeleteTransaction(id);
  }

  /**
   * A created transaction reads back, under the returned id, with the
   * submitted type, category and amount, the server's date and the
   * defaulted description.
   */
  method CreateThenGet(s: Store, req: TransactionRequest, now: string) returns (created: Response, fetched: Response)
    requires s.Valid()
    modifies s
    ensures s.Valid()
    ensures created.status == CREATED <==> !InvalidTransactionData(req) && req.category.value in old(s.categories)
    ensures created.status == CREATED ==>
      && created.body.Created?
      && fetched == Response(OK, TransactionRow(Transaction(
           created.body.id, ParseKind(req.kind).value, req.category.value, req.amount.value,
           now, Some(OrEmpty(req.description)))))
  {
    created := s.CreateTransaction(req, now);
    if created.status == CREATED {
      fetched := s.GetTransaction(created.body.id);
    } else {
      fetched := created;
    }
  }

  /**
   * A successful create moves the balance by the new row's signed amount; a
   * refused one leaves it alone.
   */
  method CreateMovesBalance(s: Store, req: TransactionRequest, now: string) returns (r: Response)
    requires s.Valid()
    modifies s
    ensures s.Valid()
    ensures r.status == CREATED ==>
      && !InvalidTransactionData(req)
      && Balance(s.transactions) == old(Balance(s.transactions)) +
        (if ParseKind(req.kind) == Some(Income) then req.amount.value else -req.amount.value)
    ensures r.status != CREATED ==> Balance(s.transactions) == old(Balance(s.transactions))
  {
    ghost var before := s.transactions;
    r := s.CreateTransaction(req, now);
    if r.status == CREATED {
      BalanceAfterInsert(before, s.transactions[r.body.id]);
      assert s.transactions == before[r.body.id := s.transactions[r.body.id]];
    }
  }

  /** Deleting a row takes its signed amount off the balance. */
  method DeleteMovesBalance(s: Store, id: int) returns (r: Response)
    requires s.Valid()
    modifies s
    ensures s.Valid()
    ensures id in old(s.transactions) ==>
      Balance(s.transactions) == old(Balance(s.transactions)) - old(Signed(s.transactions[id]))
    ensures id !in old(s.transactions) ==> Balance(s.transactions) == old(Balance(s.transactions))
  {
    ghost var before := s.transactions;
    r := s.DeleteTransaction(id);
    if id in before {
      BalanceAfterDelete(before, id);
    }
  }
}
