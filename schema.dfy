/**
 * The two tables created at start-up (app.js:21-37): their row types, the
 * CHECK(type IN ('income', 'expense')) domain and what it means for a table
 * to be keyed by its INTEGER PRIMARY KEY.
 */
module Schema {
  import opened Wrappers

  /** The only two values the `type` column of either table admits. */
  datatype Kind = Income | Expense

  /** The text stored in a `type` column, and in a request's `type` field. */
  function KindName(k: Kind): (s: string)
    ensures s != ""
    ensures ParseKind(Some(s)) == Some(k)
  {
    match k
    case Income => "income"
    case Expense => "expense"
  }

  /** The equality test `type === 'income' || type === 'expense'` on a request field. */
  function ParseKind(f: Option<string>): (k: Option<Kind>)
    ensures k == Some(Income) <==> f == Some("income")
    ensures k == Some(Expense) <==> f == Some("expense")
  {
    if f == Some("income") then Some(Income)
    else if f == Some("expense") then Some(Expense)
    else None
  }

  /** A row of `categories(id, name, type)`. */
  datatype Category = Category(id: int, name: string, kind: Kind)

  /**
   * A row of `transactions(id, type, category, amount, date, description)`.
   * `amount` is exact; `description` is a nullable TEXT column.
   */
  datatype Transaction = Transaction(
    id: int,
    kind: Kind,
    category: int,
    amount: real,
    date: string,
    description: Option<string>)

  /**
   * A table held as a map from primary key to row is keyed when every row
   * sits under its own id, so that the set of rows loses nothing.
   */
  ghost predicate Keyed<V>(table: map<int, V>, key: V -> int)
  {
    forall id :: id in table ==> key(table[id]) == id
  }

  /**
   * `SELECT *` of a keyed table returns one row per primary key: each row
   * is the one stored under its own id, and the set of rows has as many
   * elements as the table has keys.
   */
  lemma {:induction false} KeyedRows<V>(table: map<int, V>, key: V -> int)
    requires Keyed(table, key)
    ensures forall v :: v in table.Values ==> key(v) in table && table[key(v)] == v
    ensures |table.Values| == |table|
    decreases |table|
  {
    forall v | v in table.Values ensures key(v) in table && table[key(v)] == v {
      if forall j :: j in table ==> table[j] != v {
        assert false;
      }
      var j :| j in table && table[j] == v;
      assert key(table[j]) == j;
    }
    if |table| != 0 {
      if forall id :: id !in table {
        assert false;
      }
      var id :| id in table;
      var rest := table - {id};
      assert Keyed(rest, key);
      KeyedRows(rest, key);
      assert table.Values == rest.Values + {table[id]} by {
        forall v | v in table.Values ensures v in rest.Values + {table[id]} {
          if forall j :: j in table ==> table[j] != v {
            assert false;
          }
          var j :| j in table && table[j] == v;
          if j != id {
            assert rest[j] == v;
          }
        }
        forall v | v in rest.Values ensures v in table.Values {
          if forall j :: j in rest ==> rest[j] != v {
            assert false;
          }
          var j :| j in rest && rest[j] == v;
          assert table[j] == v;
        }
      }
      assert table[id] !in rest.Values by {
        forall j | j in rest ensures rest[j] != table[id] {
          assert key(rest[j]) == j && key(table[id]) == id;
        }
        if table[id] in rest.Values {
          assert false;
        }
      }
      assert |rest| == |table| - 1;
    }
  }
}
