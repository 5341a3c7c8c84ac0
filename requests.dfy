/**
 * The JSON request bodies of the two creating endpoints and of the update
 * endpoint, and the validation conditions applied to them (app.js:57,
 * app.js:114, app.js:183).
 */
module Requests {
  import opened Wrappers
  import opened Schema

  /**
   * JavaScript truthiness of a request field of a known JSON type: an absent
   * or null field is falsy, and so is the type's one falsy value (`0` for a
   * number, `""` for a string); everything else is truthy.
   */
  predicate Truthy<T(==)>(f: Option<T>, falsy: T)
  {
    f.Some? && f.value != falsy
  }

  /** The body `{type, category, amount, description}` of POST and PUT /transactions. */
  datatype TransactionRequest = TransactionRequest(
    kind: Option<string>,
    category: Option<int>,
    amount: Option<real>,
    description: Option<string>)

  /** The body `{name, type}` of POST /categories. */
  datatype CategoryRequest = CategoryRequest(name: Option<string>, kind: Option<string>)

  /** The fields of a transaction request that passed validation. */
  datatype TransactionData = TransactionData(kind: Kind, category: int, amount: real)

  /** The fields of a category request that passed validation. */
  datatype CategoryData = CategoryData(name: string, kind: Kind)

  /**
   * The guard `!type || !category || !amount || (type !== 'income' && type
   * !== 'expense')` shared by create and update.
   */
  predicate InvalidTransactionData(req: TransactionRequest)
  {
    || !Truthy(req.kind, "")
    || !Truthy(req.category, 0)
    || !Truthy(req.amount, 0.0)
    || (req.kind != Some("income") && req.kind != Some("expense"))
  }

  /**
   * Validation of a transaction request: it fails exactly when the guard
   * holds (so `amount: 0` and `category: 0` are refused), and otherwise
   * yields the request's own type, category and amount.
   */
  function CheckTransaction(req: TransactionRequest): (r: Option<TransactionData>)
    ensures r.None? <==> InvalidTransactionData(req)
    ensures r.Some? ==>
      && req.kind == Some(KindName(r.value.kind))
      && req.category == Some(r.value.category) && r.value.category != 0
      && req.amount == Some(r.value.amount) && r.value.amount != 0.0
  {
    match (ParseKind(req.kind), req.category, req.amount)
    case (Some(k), Some(c), Some(a)) =>
      if c != 0 && a != 0.0 then Some(TransactionData(k, c, a)) else None
    case _ => None
  }

  /** The guard `!name || (type !== 'income' && type !== 'expense')` of category creation. */
  predicate InvalidCategoryData(req: CategoryRequest)
  {
    !Truthy(req.name, "") || (req.kind != Some("income") && req.kind != Some("expense"))
  }

  /**
   * Validation of a category request: it fails exactly when the guard holds,
   * and otherwise yields the request's non-empty name and its type.
   */
  function CheckCategory(req: CategoryRequest): (r: Option<CategoryData>)
    ensures r.None? <==> InvalidCategoryData(req)
    ensures r.Some? ==>
      && req.name == Some(r.value.name) && r.value.name != ""
      && req.kind == Some(KindName(r.value.kind))
  {
    match (req.name, ParseKind(req.kind))
    case (Some(n), Some(k)) => if n != "" then Some(CategoryData(n, k)) else None
    case _ => None
  }

  /**
   * `description || ''`: a truthy description is kept, an absent, null or
   * empty one becomes the empty string.
   */
  function OrEmpty(d: Option<string>): (s: string)
    ensures Truthy(d, "") ==> s == d.value
    ensures !Truthy(d, "") ==> s == ""
  {
    match d
    case Some(text) => text
    case None => ""
  }

  /**
   * Every transaction request is accepted or refused by its fields alone:
   * a request built from validated data and any description validates back
   * to that data.
   */
  lemma CheckTransactionRoundTrip(d: TransactionData, description: Option<string>)
    requires d.category != 0 && d.amount != 0.0
    ensures CheckTransaction(TransactionRequest(
      Some(KindName(d.kind)), Some(d.category), Some(d.amount), description)) == Some(d)
  {
  }
}
