/**
 * The aggregate behind GET /summary (app.js:159-167): `SUM(amount)` over the
 * rows of one type, SQL's NULL for a sum over no rows, JavaScript's `|| 0`,
 * and how the totals move when a row is inserted, replaced or deleted.
 */
module Ledger {
  import opened Wrappers
  import opened Schema

  /** What one row adds to the total of kind `k`. */
  function Contribution(t: Transaction, k: Kind): real
  {
    if t.kind == k then t.amount else 0.0
  }

  lemma {:induction false} MinExists(keys: set<int>)
    requires keys != {}
    ensures exists m :: m in keys && forall j :: j in keys ==> m <= j
    decreases |keys|
  {
    if forall x :: x !in keys {
      assert false;
    }
    var x :| x in keys;
    if keys != {x} {
      var rest := keys - {x};
      MinExists(rest);
      var m :| m in rest && forall j :: j in rest ==> m <= j;
      if x < m {
        forall j | j in keys ensures x <= j {
          if j != x { assert j in rest; }
        }
      } else {
        forall j | j in keys ensures m <= j {
          if j != x { assert j in rest; }
        }
      }
    } else {
      forall j | j in keys ensures x <= j {
        assert j == x;
      }
    }
  }

  /** The least key of a non-empty set of keys; it fixes the order of the fold. */
  function MinKey(keys: set<int>): (m: int)
    requires keys != {}
    ensures m in keys && forall j :: j in keys ==> m <= j
  {
    MinExists(keys);
    var m :| m in keys && forall j :: j in keys ==> m <= j;
    m
  }

  /**
   * The sum of the amounts of the rows of kind `k`, in ascending id order
   * (the reference definition of the totals; 0 over no rows).
   */
  function Total(rows: map<int, Transaction>, k: Kind): real
    decreases |rows|
  {
    if |rows| == 0 then 0.0
    else
      var id := MinKey(rows.Keys);
      assert |rows - {id}| == |rows| - 1;
      Contribution(rows[id], k) + Total(rows - {id}, k)
  }

  /** The fold does not depend on which row is taken out first. */
  lemma {:induction false} TotalRemove(rows: map<int, Transaction>, k: Kind, id: int)
    requires id in rows
    ensures Total(rows, k) == Contribution(rows[id], k) + Total(rows - {id}, k)
    decreases |rows|
  {
    var m := MinKey(rows.Keys);
    if m != id {
      var rest := rows - {m};
      assert |rest| == |rows| - 1;
      TotalRemove(rest, k, id);
      var without := rows - {id};
      assert |without| == |rows| - 1;
      assert |without| != 0 by { assert m in without; }
      var wm := MinKey(without.Keys);
      assert m in without.Keys;
      assert wm <= m;
      assert wm in rows.Keys;
      assert MinKey(without.Keys) == m;
      assert without - {m} == rest - {id};
    }
  }

  /** Inserting a row under a fresh key adds its contribution to the total. */
  lemma TotalInsert(rows: map<int, Transaction>, k: Kind, t: Transaction)
    requires t.id !in rows
    ensures Total(rows[t.id := t], k) == Total(rows, k) + Contribution(t, k)
  {
    TotalRemove(rows[t.id := t], k, t.id);
    assert rows[t.id := t] - {t.id} == rows;
  }

  /** Replacing the row under a key swaps its contribution for the new one. */
  lemma TotalReplace(rows: map<int, Transaction>, k: Kind, id: int, t: Transaction)
    requires id in rows
    ensures Total(rows[id := t], k) == Total(rows, k) - Contribution(rows[id], k) + Contribution(t, k)
  {
    TotalRemove(rows, k, id);
    TotalRemove(rows[id := t], k, id);
    assert rows[id := t] - {id} == rows - {id};
  }

  /** With no row of kind `k` the total is 0. */
  lemma {:induction false} TotalOfAbsentKind(rows: map<int, Transaction>, k: Kind)
    requires forall id :: id in rows ==> rows[id].kind != k
    ensures Total(rows, k) == 0.0
    decreases |rows|
  {
    if |rows| != 0 {
      var m := MinKey(rows.Keys);
      assert |rows - {m}| == |rows| - 1;
      TotalOfAbsentKind(rows - {m}, k);
    }
  }

  /**
   * `SELECT SUM(amount) FROM transactions WHERE type = k`: NULL when no row
   * has that type, the total otherwise; NULL stands only for a zero total.
   */
  function SqlSum(rows: map<int, Transaction>, k: Kind): (s: Option<real>)
    ensures s.None? <==> forall id :: id in rows ==> rows[id].kind != k
    ensures s.None? ==> Total(rows, k) == 0.0
    ensures s.Some? ==> s.value == Total(rows, k)
  {
    if exists id :: id in rows && rows[id].kind == k then Some(Total(rows, k))
    else
      TotalOfAbsentKind(rows, k);
      None
  }

  /** JavaScript's `x || 0` on a query result: a NULL sum reads as 0 and every number as itself. */
  function OrZero(s: Option<real>): (v: real)
    ensures s.None? ==> v == 0.0
    ensures s.Some? ==> v == s.value
  {
    if s.Some? && s.value != 0.0 then s.value else 0.0
  }

  /** The body `{totalIncome, totalExpense, balance}` of GET /summary. */
  datatype Summary = Summary(totalIncome: real, totalExpense: real, balance: real)

  /** The balance of a table: income total less expense total. */
  function Balance(rows: map<int, Transaction>): real
  {
    Total(rows, Income) - Total(rows, Expense)
  }

  /** A signed amount: what a row moves the balance by. */
  function Signed(t: Transaction): real
  {
    if t.kind == Income then t.amount else -t.amount
  }

  /** A newly created transaction moves the balance by its signed amount. */
  lemma BalanceAfterInsert(rows: map<int, Transaction>, t: Transaction)
    requires t.id !in rows
    ensures Balance(rows[t.id := t]) == Balance(rows) + Signed(t)
  {
    TotalInsert(rows, Income, t);
    TotalInsert(rows, Expense, t);
  }

  /** Deleting a transaction takes its signed amount back off the balance. */
  lemma BalanceAfterDelete(rows: map<int, Transaction>, id: int)
    requires id in rows
    ensures Balance(rows - {id}) == Balance(rows) - Signed(rows[id])
  {
    TotalRemove(rows, Income, id);
    TotalRemove(rows, Expense, id);
  }

  /** Updating a transaction replaces its signed amount in the balance. */
  lemma BalanceAfterUpdate(rows: map<int, Transaction>, id: int, t: Transaction)
    requires id in rows
    ensures Balance(rows[id := t]) == Balance(rows) - Signed(rows[id]) + Signed(t)
  {
    TotalReplace(rows, Income, id, t);
    TotalReplace(rows, Expense, id, t);
  }
}
