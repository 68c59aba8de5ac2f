/**
 * The SQLite database behind the API: the `categories` and `expenses`
 * tables as sequences of rows in table order, the statements the routes
 * run on them, and the integrity the routes keep (primary keys, the unique
 * category name, the foreign key from an expense to its category).
 */
module Store {
  import opened Wrappers
  import opened Schemas

  datatype Category = Category(id: string, name: string, createdAt: string)

  datatype Expense = Expense(
    id: string,
    amountCents: int,
    date: string,
    merchant: Option<string>,
    description: Option<string>,
    paymentMethod: Option<PaymentMethod>,
    categoryId: string,
    createdAt: string,
    updatedAt: string)

  /** The name of the category that may be neither renamed nor deleted. */
  const Uncategorized := "uncategorized"

  function CategoryId(c: Category): string { c.id }
  function CategoryName(c: Category): string { c.name }
  function ExpenseId(e: Expense): string { e.id }
  function ExpenseCategory(e: Expense): string { e.categoryId }

  // ---- tables keyed by a column -----------------------------------------

  /** The values of a column. */
  function Keys<T>(rows: seq<T>, key: T -> string): (ks: set<string>)
    ensures forall i :: 0 <= i < |rows| ==> key(rows[i]) in ks
  {
    if rows == [] then {} else {key(rows[0])} + Keys(rows[1..], key)
  }

  lemma {:induction false} KeysIndex<T>(rows: seq<T>, key: T -> string, k: string)
    ensures k in Keys(rows, key) <==> exists i :: 0 <= i < |rows| && key(rows[i]) == k
  {
    if rows != [] {
      KeysIndex(rows[1..], key, k);
      if k in Keys(rows[1..], key) {
        var i :| 0 <= i < |rows[1..]| && key(rows[1..][i]) == k;
        assert key(rows[i + 1]) == k;
      }
      if exists i :: 0 <= i < |rows| && key(rows[i]) == k {
        var i :| 0 <= i < |rows| && key(rows[i]) == k;
        if i > 0 {
          assert key(rows[1..][i - 1]) == k;
        }
      }
    }
  }

  lemma KeyOfRow<T>(rows: seq<T>, key: T -> string, x: T)
    requires x in rows
    ensures key(x) in Keys(rows, key)
  {
    var i :| 0 <= i < |rows| && rows[i] == x;
  }

  /** No two rows share a value of the column: a PRIMARY KEY or UNIQUE constraint. */
  predicate UniqueKeys<T>(rows: seq<T>, key: T -> string) {
    forall i, j :: 0 <= i < j < |rows| ==> key(rows[i]) != key(rows[j])
  }

  lemma UniqueCons<T>(x: T, rows: seq<T>, key: T -> string)
    ensures UniqueKeys([x] + rows, key) <==> key(x) !in Keys(rows, key) && UniqueKeys(rows, key)
  {
    var s := [x] + rows;
    assert s[0] == x;
    assert forall i :: 0 <= i < |rows| ==> s[i + 1] == rows[i];
    KeysIndex(rows, key, key(x));
    if UniqueKeys(s, key) {
      forall i, j | 0 <= i < j < |rows| ensures key(rows[i]) != key(rows[j]) {
        assert key(s[i + 1]) != key(s[j + 1]);
      }
    }
    if key(x) !in Keys(rows, key) && UniqueKeys(rows, key) {
      forall i, j | 0 <= i < j < |s| ensures key(s[i]) != key(s[j]) {
        if i > 0 {
          assert key(rows[i - 1]) != key(rows[j - 1]);
        }
      }
    }
  }

  /** Appending a row whose key is new keeps the keys unique. */
  lemma {:induction false} UniqueSnoc<T>(rows: seq<T>, x: T, key: T -> string)
    requires UniqueKeys(rows, key) && key(x) !in Keys(rows, key)
    ensures UniqueKeys(rows + [x], key)
    ensures Keys(rows + [x], key) == Keys(rows, key) + {key(x)}
  {
    var s := rows + [x];
    forall i, j | 0 <= i < j < |s| ensures key(s[i]) != key(s[j]) {
      if j == |rows| {
        KeysIndex(rows, key, key(x));
        assert key(rows[i]) in Keys(rows, key);
      }
    }
    forall k ensures k in Keys(s, key) <==> k in Keys(rows, key) + {key(x)} {
      KeysIndex(rows, key, k);
      KeysIndex(s, key, k);
      if k in Keys(s, key) {
        var i :| 0 <= i < |s| && key(s[i]) == k;
        if i < |rows| { assert key(rows[i]) == k; }
      }
      if k in Keys(rows, key) {
        var i :| 0 <= i < |rows| && key(rows[i]) == k;
        assert key(s[i]) == k;
      }
      assert key(s[|rows|]) == key(x);
    }
  }

  /** Two tables whose rows agree on the column, row by row, have the same keys. */
  lemma SameKeys<T>(a: seq<T>, b: seq<T>, key: T -> string)
    requires |a| == |b| && forall i :: 0 <= i < |a| ==> key(a[i]) == key(b[i])
    ensures Keys(a, key) == Keys(b, key)
    ensures UniqueKeys(a, key) ==> UniqueKeys(b, key)
  {
    forall k ensures k in Keys(a, key) <==> k in Keys(b, key) {
      KeysIndex(a, key, k);
      KeysIndex(b, key, k);
    }
  }

  /** `SELECT ... WHERE key = ?` read with `.get()`: the first matching row, if any. */
  function Lookup<T>(rows: seq<T>, key: T -> string, k: string): (r: Option<T>)
    ensures r.None? <==> k !in Keys(rows, key)
    ensures r.Some? ==> r.value in rows && key(r.value) == k
  {
    if rows == [] then None
    else if key(rows[0]) == k then Some(rows[0])
    else Lookup(rows[1..], key, k)
  }

  /** Under a unique key, the row found is the one row with that key. */
  lemma {:induction false} LookupUnique<T>(rows: seq<T>, key: T -> string, i: nat)
    requires UniqueKeys(rows, key) && i < |rows|
    ensures Lookup(rows, key, key(rows[i])) == Some(rows[i])
  {
    if i > 0 {
      assert rows[1..][i - 1] == rows[i];
      assert key(rows[0]) != key(rows[i]);
      LookupUnique(rows[1..], key, i - 1);
    }
  }

  /** Where a lookup under a unique key found its row. */
  lemma LookupIndex<T>(rows: seq<T>, key: T -> string, k: string) returns (i: nat)
    requires UniqueKeys(rows, key) && Lookup(rows, key, k).Some?
    ensures i < |rows| && key(rows[i]) == k && rows[i] == Lookup(rows, key, k).value
  {
    KeysIndex(rows, key, k);
    i :| 0 <= i < |rows| && key(rows[i]) == k;
    LookupUnique(rows, key, i);
  }

  /** `DELETE FROM ... WHERE key = ?`. */
  function DeleteWhere<T(!new)>(rows: seq<T>, key: T -> string, k: string): (r: seq<T>)
    ensures forall x :: x in r <==> x in rows && key(x) != k
    ensures Keys(r, key) == Keys(rows, key) - {k}
    ensures k !in Keys(rows, key) ==> r == rows
    ensures UniqueKeys(rows, key) ==> UniqueKeys(r, key)
    ensures UniqueKeys(rows, key) && k in Keys(rows, key) ==> |r| == |rows| - 1
  {
    if rows == [] then []
    else
      var rest := DeleteWhere(rows[1..], key, k);
      UniqueCons(rows[0], rows[1..], key);
      assert rows == [rows[0]] + rows[1..];
      if key(rows[0]) == k then rest
      else
        UniqueCons(rows[0], rest, key);
        [rows[0]] + rest
  }

  // ---- the database -----------------------------------------------------

  /**
   * What the routes keep true of the tables: the primary keys and the unique
   * name hold, every expense refers to an existing category (foreign keys are
   * enforced), and every stored amount and date is one the schemas let through.
   * So the category of every expense can be looked up.
   */
  ghost predicate Integrity(cats: seq<Category>, es: seq<Expense>)
    ensures Integrity(cats, es) ==> forall e | e in es :: Lookup(cats, CategoryId, e.categoryId).Some?
  {
    && UniqueKeys(cats, CategoryId)
    && UniqueKeys(cats, CategoryName)
    && UniqueKeys(es, ExpenseId)
    && (forall e | e in es :: e.categoryId in Keys(cats, CategoryId) && e.amountCents >= 0 && IsDateText(e.date))
  }

  lemma IntegrityOf(cats: seq<Category>, es: seq<Expense>)
    requires UniqueKeys(cats, CategoryId) && UniqueKeys(cats, CategoryName) && UniqueKeys(es, ExpenseId)
    requires forall e | e in es :: e.categoryId in Keys(cats, CategoryId) && e.amountCents >= 0 && IsDateText(e.date)
    ensures Integrity(cats, es)
  {
  }

  /** An INSERT of a row with an unused id, a known category and a valid amount and date keeps the tables consistent. */
  lemma AppendKeepsIntegrity(cats: seq<Category>, es: seq<Expense>, e: Expense)
    requires Integrity(cats, es) && e.id !in Keys(es, ExpenseId)
    requires e.categoryId in Keys(cats, CategoryId) && e.amountCents >= 0 && IsDateText(e.date)
    ensures Integrity(cats, es + [e])
  {
    UniqueSnoc(es, e, ExpenseId);
  }

  class Ledger {
    var categories: seq<Category>
    var expenses: seq<Expense>

    /** A freshly migrated database: both tables empty. */
    constructor ()
      ensures categories == [] && expenses == []
      ensures Valid()
    {
      categories := [];
      expenses := [];
    }

    ghost predicate Valid()
      reads this
    {
      Integrity(categories, expenses)
    }
  }
}
