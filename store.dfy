/**
 * The eight route handlers (app.js:54-205) as atomic steps of one store that
 * holds the two tables and their AUTOINCREMENT sequences (app.js:21-37).
 */
module Bookkeeping {
  import opened Wrappers
  import opened Schema
  import opened Requests
  import opened Ledger
  import opened Http

  function CategoryId(c: Category): int { c.id }
  function TransactionId(t: Transaction): int { t.id }

  class Store {
    /** The `categories` table, by primary key. */
    var categories: map<int, Category>
    /** The `transactions` table, by primary key. */
    var transactions: map<int, Transaction>
    /** The largest category id ever issued (the table's `sqlite_sequence` entry). */
    var lastCategoryId: int
    /** The largest transaction id ever issued, deleted rows included. */
    var lastTransactionId: int
    /** Every transaction id ever issued, deleted rows included. */
    ghost var issuedTransactionIds: set<int>

    ghost predicate Valid()
      reads this
    {
      && 0 <= lastCategoryId
      && 0 <= lastTransactionId
      && Keyed(categories, CategoryId)
      && (forall id :: id in categories ==> 1 <= id <= lastCategoryId)
      && Keyed(transactions, TransactionId)
      && transactions.Keys <= issuedTransactionIds
      && (forall id :: id in issuedTransactionIds ==> 1 <= id <= lastTransactionId)
    }

    /**
     * Every transaction names an existing category. Creating a transaction
     * keeps this; updating one does not (app.js:114-124 skips the check).
     */
    predicate ReferencesResolved()
      reads this
    {
      forall id :: id in transactions ==> transactions[id].category in categories
    }

    /** A freshly created database: both tables empty, no id issued yet. */
    constructor ()
      ensures Valid() && ReferencesResolved()
      ensures categories == map[] && transactions == map[]
      ensures lastCategoryId == 0 && lastTransactionId == 0 && issuedTransactionIds == {}
    {
      categories := map[];
      transactions := map[];
      lastCategoryId := 0;
      lastTransactionId := 0;
      issuedTransactionIds := {};
    }

    /**
     * POST /transactions. Refuses invalid data, then an unknown category,
     * each with 400 and no change; otherwise inserts a row under an id
     * greater than every id ever issued, dated `now`, with `description ||
     * ''`, and answers 201 with that id.
     */
    method CreateTransaction(req: TransactionRequest, now: string) returns (r: Response)
      requires Valid()
      modifies this
      ensures Valid()
      ensures categories == old(categories) && lastCategoryId == old(lastCategoryId)
      ensures old(ReferencesResolved()) ==> ReferencesResolved()
      ensures InvalidTransactionData(req) ==>
        r == Response(BAD_REQUEST, Error(INVALID_TRANSACTION)) && unchanged(this)
      ensures !InvalidTransactionData(req) && req.category.value !in old(categories) ==>
        r == Response(BAD_REQUEST, Error(UNKNOWN_CATEGORY)) && unchanged(this)
      ensures !InvalidTransactionData(req) && req.category.value in old(categories) ==>
        var id := old(lastTransactionId) + 1;
        && r == Response(CREATED, Created(id))
        && id !in old(issuedTransactionIds)
        && (forall j :: j in old(issuedTransactionIds) ==> j < id)
        && lastTransactionId == id
        && issuedTransactionIds == old(issuedTransactionIds) + {id}
        && transactions == old(transactions)[id := Transaction(
             id, ParseKind(req.kind).value, req.category.value, req.amount.value,
             now, Some(OrEmpty(req.description)))]
    {
      var data := CheckTransaction(req);
      if data.None? {
        return Response(BAD_REQUEST, Error(INVALID_TRANSACTION));
      }
      var d := data.value;
      if d.category !in categories {
        return Response(BAD_REQUEST, Error(UNKNOWN_CATEGORY));
      }
      var id := lastTransactionId + 1;
      transactions := transactions[id := Transaction(
        id, d.kind, d.category, d.amount, now, Some(OrEmpty(req.description)))];
      lastTransactionId := id;
      issuedTransactionIds := issuedTransactionIds + {id};
      r := Response(CREATED, Created(id));
    }

    /** GET /transactions: every stored transaction, once each, and nothing else. */
    method ListTransactions() returns (r: Response)
      requires Valid()
      ensures r.status == OK && r.body.TransactionRows?
      ensures forall id :: id in transactions ==> transactions[id] in r.body.rows
      ensures forall t :: t in r.body.rows ==> t.id in transactions && transactions[t.id] == t
      ensures |r.body.rows| == |transactions|
    {
      KeyedRows(transactions, TransactionId);
      r := Response(OK, TransactionRows(transactions.Values));
    }

    /** GET /transactions/:id: the stored row under that id (200), or 404. */
    method GetTransaction(id: int) returns (r: Response)
      requires Valid()
      ensures id in transactions ==> r.status == OK && r.body == TransactionRow(transactions[id])
      ensures r.status == OK ==> r.body.TransactionRow? && r.body.row.id == id && id in transactions
      ensures id !in transactions <==> r == Response(NOT_FOUND, Error(TRANSACTION_NOT_FOUND))
    {
      if id in transactions {
        r := Response(OK, TransactionRow(transactions[id]));
      } else {
        r := Response(NOT_FOUND, Error(TRANSACTION_NOT_FOUND));
      }
    }

    /**
     * PUT /transactions/:id. Refuses invalid data with 400; otherwise
     * overwrites type, category, amount and the raw description of the row
     * (keeping its date, and without checking that the category exists) and
     * answers 200, or answers 404 when no row has that id. Nothing else
     * changes.
     */
    method UpdateTransaction(id: int, req: TransactionRequest) returns (r: Response)
      requires Valid()
      modifies this
      ensures Valid()
      ensures categories == old(categories) && lastCategoryId == old(lastCategoryId)
      ensures lastTransactionId == old(lastTransactionId)
      ensures issuedTransactionIds == old(issuedTransactionIds)
      ensures transactions.Keys == old(transactions.Keys)
      ensures InvalidTransactionData(req) ==>
        r == Response(BAD_REQUEST, Error(INVALID_TRANSACTION)) && transactions == old(transactions)
      ensures !InvalidTransactionData(req) && id !in old(transactions) ==>
        r == Response(NOT_FOUND, Error(TRANSACTION_NOT_FOUND)) && transactions == old(transactions)
      ensures !InvalidTransactionData(req) && id in old(transactions) ==>
        && r == Response(OK, Message(TRANSACTION_UPDATED))
        && transactions == old(transactions)[id := old(transactions)[id].(
             kind := ParseKind(req.kind).value,
             category := req.category.value,
             amount := req.amount.value,
             description := req.description)]
    {
      var data := CheckTransaction(req);
      if data.None? {
        return Response(BAD_REQUEST, Error(INVALID_TRANSACTION));
      }
      var d := data.value;
      var changes := if id in transactions then 1 else 0;
      if changes != 0 {
        transactions := transactions[id := transactions[id].(
          kind := d.kind, category := d.category, amount := d.amount,
          description := req.description)];
        r := Response(OK, Message(TRANSACTION_UPDATED));
      } else {
        r := Response(NOT_FOUND, Error(TRANSACTION_NOT_FOUND));
      }
    }

    /**
     * DELETE /transactions/:id: removes exactly the row with that id and
     * answers 200, or answers 404 and changes nothing when there is none.
     */
    method DeleteTransaction(id: int) returns (r: Response)
      requires Valid()
      modifies this
      ensures Valid()
      ensures categories == old(categories) && lastCategoryId == old(lastCategoryId)
      ensures lastTransactionId == old(lastTransactionId)
      ensures issuedTransactionIds == old(issuedTransactionIds)
      ensures id in old(transactions) ==>
        r == Response(OK, Message(TRANSACTION_DELETED)) && transactions == old(transactions) - {id}
      ensures id !in old(transactions) ==>
        r == Response(NOT_FOUND, Error(TRANSACTION_NOT_FOUND)) && transactions == old(transactions)
      ensures old(ReferencesResolved()) ==> ReferencesResolved()
    {
      var changes := if id in transactions then 1 else 0;
      if changes != 0 {
        transactions := transactions - {id};
        r := Response(OK, Message(TRANSACTION_DELETED));
      } else {
        r := Response(NOT_FOUND, Error(TRANSACTION_NOT_FOUND));
      }
    }

    /**
     * GET /summary: the income total, the expense total (each 0 when no row
     * has that type) and their difference; nothing changes.
     */
    method GetSummary() returns (r: Response)
      ensures r.status == OK && r.body.Totals?
      ensures r.body.summary.totalIncome == Total(transactions, Income)
      ensures r.body.summary.totalExpense == Total(transactions, Expense)
      ensures r.body.summary.balance == Balance(transactions)
      ensures r.body.summary.balance == r.body.summary.totalIncome - r.body.summary.totalExpense
    {
      var incomeResult := SqlSum(transactions, Income);
      var expenseResult := SqlSum(transactions, Expense);
      var totalIncome := OrZero(incomeResult);
      var totalExpense := OrZero(expenseResult);
      var balance := totalIncome - totalExpense;
      r := Response(OK, Totals(Summary(totalIncome, totalExpense, balance)));
    }

    /**
     * POST /categories. Refuses a falsy name or an unknown type with 400 and
     * no change; otherwise inserts `{name, type}` under a fresh id greater
     * than every existing one and answers 201 with it.
     */
    method CreateCategory(req: CategoryRequest) returns (r: Response)
      requires Valid()
      modifies this
      ensures Valid()
      ensures transactions == old(transactions) && lastTransactionId == old(lastTransactionId)
      ensures issuedTransactionIds == old(issuedTransactionIds)
      ensures old(ReferencesResolved()) ==> ReferencesResolved()
      ensures InvalidCategoryData(req) ==>
        r == Response(BAD_REQUEST, Error(INVALID_CATEGORY)) && unchanged(this)
      ensures !InvalidCategoryData(req) ==>
        var id := old(lastCategoryId) + 1;
        && r == Response(CREATED, Created(id))
        && (forall j :: j in old(categories) ==> j < id)
        && lastCategoryId == id
        && categories == old(categories)[id := Category(id, req.name.value, ParseKind(req.kind).value)]
    {
      var data := CheckCategory(req);
      if data.None? {
        return Response(BAD_REQUEST, Error(INVALID_CATEGORY));
      }
      var id := lastCategoryId + 1;
      categories := categories[id := Category(id, data.value.name, data.value.kind)];
      lastCategoryId := id;
      r := Response(CREATED, Created(id));
    }

    /** GET /categories: every stored category, once each, and nothing else. */
    method ListCategories() returns (r: Response)
      requires Valid()
      ensures r.status == OK && r.body.CategoryRows?
      ensures forall id :: id in categories ==> categories[id] in r.body.categories
      ensures forall c :: c in r.body.categories ==> c.id in categories && categories[c.id] == c
      ensures |r.body.categories| == |categories|
    {
      KeyedRows(categories, CategoryId);
      r := Response(OK, CategoryRows(categories.Values));
    }
  }
}
