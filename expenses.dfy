/**
 * The expense routes: the filtered, ordered, paginated listing, and the
 * read, create, update and delete of one expense.
 */
module ExpenseRoutes {
  import opened Wrappers
  import opened Text
  import opened Sql
  import opened Sorting
  import opened Schemas
  import opened ErrorHandler
  import opened Money
  import opened Store

  const PageSize := 20

  // ---- the joined row -----------------------------------------------------

  /** A row of the `expenses LEFT JOIN categories` queries, with `amount` in dollars added. */
  datatype ExpenseView = ExpenseView(expense: Expense, categoryName: Option<string>, amount: real)

  /** `c.name` of the LEFT JOIN: null when no category has the id. */
  function CategoryNameOf(cats: seq<Category>, id: string): (r: Option<string>)
    ensures r.Some? <==> id in Keys(cats, CategoryId)
  {
    match Lookup(cats, CategoryId, id)
    case None => None
    case Some(c) => Some(c.name)
  }

  /** A row as the client gets it: the expense, its category's name when the category exists, and its amount in dollars. */
  function View(cats: seq<Category>, e: Expense): (v: ExpenseView)
    ensures v.expense == e
    ensures v.categoryName.Some? <==> e.categoryId in Keys(cats, CategoryId)
    ensures v.amount * 100.0 == e.amountCents as real
  {
    ExpenseView(e, CategoryNameOf(cats, e.categoryId), ToDollars(e.amountCents))
  }

  function Views(cats: seq<Category>, rows: seq<Expense>): (r: seq<ExpenseView>)
    ensures |r| == |rows|
    ensures forall i :: 0 <= i < |rows| ==> r[i] == View(cats, rows[i])
  {
    seq(|rows|, i requires 0 <= i < |rows| => View(cats, rows[i]))
  }

  /**
   * Under the integrity of the tables the join always finds the category,
   * its name is that category's own, and the dollar amount converts back to
   * the stored cents.
   */
  lemma ViewOfStored(cats: seq<Category>, es: seq<Expense>, e: Expense)
    requires Integrity(cats, es) && e in es
    ensures View(cats, e).categoryName.Some?
    ensures exists c :: c in cats && c.id == e.categoryId && View(cats, e).categoryName == Some(c.name)
    ensures ToCents(View(cats, e).amount) == e.amountCents
  {
    CentsOfDollars(e.amountCents);
  }

  // ---- the WHERE clause ---------------------------------------------------

  /** One condition of the WHERE clause with its bound parameter. */
  datatype Filter =
    | DateLike(pattern: string)    // e.date LIKE ?
    | CategoryIs(id: string)       // e.category_id = ?
    | TextLike(pattern: string)    // (e.merchant LIKE ? OR e.description LIKE ?)

  /** A NULL column never satisfies LIKE. */
  predicate ColumnLike(column: Option<string>, pattern: string) {
    column.Some? && Like(column.value, pattern)
  }

  predicate Holds(f: Filter, e: Expense) {
    match f
    case DateLike(p) => Like(e.date, p)
    case CategoryIs(id) => e.categoryId == id
    case TextLike(p) => ColumnLike(e.merchant, p) || ColumnLike(e.description, p)
  }

  /** `1=1 AND ...`: every condition holds. */
  predicate HoldsAll(filters: seq<Filter>, e: Expense) {
    forall i :: 0 <= i < |filters| ==> Holds(filters[i], e)
  }

  /** A JavaScript-truthy optional text: present and not empty. */
  predicate Truthy(t: Option<string>) {
    t.Some? && t.value != ""
  }

  /** The conditions the query switches on, as SQL evaluates them. */
  predicate Matches(query: ExpenseQuery, e: Expense) {
    && (Truthy(query.month) ==> Like(e.date, query.month.value + "%"))
    && (Truthy(query.categoryId) ==> e.categoryId == query.categoryId.value)
    && (Truthy(query.q) ==>
          ColumnLike(e.merchant, "%" + query.q.value + "%") || ColumnLike(e.description, "%" + query.q.value + "%"))
  }

  /** Builds the WHERE clause one condition at a time, as the handler appends to it. */
  method BuildWhere(query: ExpenseQuery) returns (filters: seq<Filter>)
    ensures forall e :: HoldsAll(filters, e) <==> Matches(query, e)
    ensures |filters| <= 3
  {
    filters := [];
    if Truthy(query.month) {
      filters := filters + [DateLike(query.month.value + "%")];
    }
    if Truthy(query.categoryId) {
      filters := filters + [CategoryIs(query.categoryId.value)];
    }
    if Truthy(query.q) {
      filters := filters + [TextLike("%" + query.q.value + "%")];
    }
    forall e ensures HoldsAll(filters, e) <==> Matches(query, e) {
      if Matches(query, e) {
        forall i | 0 <= i < |filters| ensures Holds(filters[i], e) {
        }
      }
      if HoldsAll(filters, e) {
        if Truthy(query.month) { assert Holds(filters[0], e); }
        if Truthy(query.categoryId) {
          var i := if Truthy(query.month) then 1 else 0;
          assert Holds(filters[i], e);
        }
        if Truthy(query.q) { assert Holds(filters[|filters| - 1], e); }
      }
    }
  }

  /** What the filters mean for a query the schema let through and whose `q` holds no LIKE wildcard. */
  predicate Wanted(query: ExpenseQuery, e: Expense) {
    && (Truthy(query.month) ==> |query.month.value| <= |e.date| && e.date[..|query.month.value|] == query.month.value)
    && (Truthy(query.categoryId) ==> e.categoryId == query.categoryId.value)
    && (Truthy(query.q) ==>
          (e.merchant.Some? && ContainsIgnoringCase(e.merchant.value, query.q.value))
          || (e.description.Some? && ContainsIgnoringCase(e.description.value, query.q.value)))
  }

  /** A month that passed the schema, and a `q` without `%` or `_`. */
  predicate Literal(query: ExpenseQuery) {
    && (query.month.Some? ==> IsMonthText(query.month.value))
    && (query.q.Some? ==> NoWildcards(query.q.value))
  }

  /**
   * For such a query the SQL conditions say what they are meant to: the date
   * starts with the month, the category is the one asked for, and the
   * merchant or the description contains `q` up to ASCII case.
   */
  lemma MatchesMeansWanted(query: ExpenseQuery, e: Expense)
    requires Literal(query)
    ensures Matches(query, e) <==> Wanted(query, e)
  {
    if Truthy(query.month) {
      var m := query.month.value;
      assert NoWildcards(m) by {
        forall i | 0 <= i < |m| ensures !IsWildcard(m[i]) {
          assert i == 4 || IsDigit(m[i]);
        }
      }
      LikePrefix(e.date, m);
      PrefixIgnoringCaseOfDigits(m, e.date);
    }
    if Truthy(query.q) {
      if e.merchant.Some? { LikeContains(e.merchant.value, query.q.value); }
      if e.description.Some? { LikeContains(e.description.value, query.q.value); }
    }
  }

  // ---- selection, order and pages ---------------------------------------

  /** The rows of the WHERE clause, in table order. */
  function Select(es: seq<Expense>, filters: seq<Filter>): (r: seq<Expense>)
    ensures forall e :: e in r <==> e in es && HoldsAll(filters, e)
    ensures |r| <= |es|
  {
    if es == [] then []
    else if HoldsAll(filters, es[0]) then [es[0]] + Select(es[1..], filters)
    else Select(es[1..], filters)
  }

  /** The expenses the query matches, in table order. */
  function Matching(es: seq<Expense>, query: ExpenseQuery): (r: seq<Expense>)
    ensures forall e :: e in r <==> e in es && Matches(query, e)
    ensures |r| <= |es|
  {
    if es == [] then []
    else if Matches(query, es[0]) then [es[0]] + Matching(es[1..], query)
    else Matching(es[1..], query)
  }

  lemma {:induction false} SelectIsMatching(es: seq<Expense>, filters: seq<Filter>, query: ExpenseQuery)
    requires forall e :: HoldsAll(filters, e) <==> Matches(query, e)
    ensures Select(es, filters) == Matching(es, query)
  {
    if es != [] {
      SelectIsMatching(es[1..], filters, query);
    }
  }

  /** `ORDER BY e.date DESC, e.created_at DESC`: `a` may come before `b`. */
  predicate NewerOrSame(a: Expense, b: Expense) {
    if a.date == b.date then TextLe(b.createdAt, a.createdAt) else TextLe(b.date, a.date)
  }

  lemma NewerOrSameTransitive(a: Expense, b: Expense, c: Expense)
    requires NewerOrSame(a, b) && NewerOrSame(b, c)
    ensures NewerOrSame(a, c)
  {
    if a.date == b.date && b.date == c.date {
      TextLeTransitive(c.createdAt, b.createdAt, a.createdAt);
    } else if a.date != b.date && b.date != c.date {
      TextLeTransitive(c.date, b.date, a.date);
      if a.date == c.date {
        TextLeAntisymmetric(a.date, b.date);
      }
    }
  }

  lemma NewerOrSameIsPreorder()
    ensures IsTotalPreorder(NewerOrSame)
  {
    forall a, b ensures NewerOrSame(a, b) || NewerOrSame(b, a) {
      TextLeTotal(a.date, b.date);
      TextLeTotal(a.createdAt, b.createdAt);
    }
    forall a, b, c | NewerOrSame(a, b) && NewerOrSame(b, c) ensures NewerOrSame(a, c) {
      NewerOrSameTransitive(a, b, c);
    }
  }

  /** The rows in listing order. */
  function NewestFirst(rows: seq<Expense>): (r: seq<Expense>)
    ensures multiset(r) == multiset(rows)
    ensures Sorted(r, NewerOrSame)
  {
    NewerOrSameIsPreorder();
    Sort(rows, NewerOrSame)
  }

  /**
   * `(page - 1) * PAGE_SIZE`: the rows of the pages before `page`. A page
   * below 1 gives a negative offset, which skips nothing.
   */
  function Offset(page: int): (k: int)
    ensures page >= 1 ==> k >= 0 && k % PageSize == 0 && k < page * PageSize
    ensures page < 1 ==> k < 0
  {
    (page - 1) * PageSize
  }

  /** `LIMIT n OFFSET k`: a negative offset skips nothing, one past the end leaves nothing. */
  function Limit<T>(rows: seq<T>, n: nat, offset: int): (r: seq<T>)
    ensures |r| <= n
    ensures offset >= |rows| ==> r == []
    ensures 0 <= offset && offset + n <= |rows| ==> r == rows[offset..offset + n]
    ensures 0 <= offset <= |rows| < offset + n ==> r == rows[offset..]
    ensures offset < 0 ==> r == rows[..if n <= |rows| then n else |rows|]
  {
    var lo := if offset < 0 then 0 else if offset > |rows| then |rows| else offset;
    var hi := if lo + n > |rows| then |rows| else lo + n;
    rows[lo..hi]
  }

  /** `Math.ceil(total / PAGE_SIZE)`. */
  function TotalPages(total: nat): (p: nat)
    ensures total == 0 <==> p == 0
    ensures total > 0 ==> PageSize * (p - 1) < total <= PageSize * p
  {
    (total + PageSize - 1) / PageSize
  }

  /** Every row is on exactly the page its position says, and that page is one of the counted ones. */
  lemma RowOnItsPage<T>(rows: seq<T>, i: nat)
    requires i < |rows|
    ensures var p := i / PageSize + 1;
      && 1 <= p <= TotalPages(|rows|)
      && i % PageSize < |Limit(rows, PageSize, Offset(p))|
      && Limit(rows, PageSize, Offset(p))[i % PageSize] == rows[i]
  {
    var p := i / PageSize + 1;
    assert Offset(p) == i - i % PageSize;
  }

  /** Every page before the last is full; a page after the last is empty, not an error. */
  lemma PageSizes<T>(rows: seq<T>, page: int)
    requires page >= 1
    ensures page < TotalPages(|rows|) ==> |Limit(rows, PageSize, Offset(page))| == PageSize
    ensures page > TotalPages(|rows|) ==> Limit(rows, PageSize, Offset(page)) == []
  {
    var n := TotalPages(|rows|);
    if page < n {
      assert PageSize * page <= PageSize * (n - 1);
    }
    if page > n {
      assert PageSize * n <= PageSize * (page - 1);
    }
  }

  /** The response body of the listing. */
  datatype Listing = Listing(expenses: seq<ExpenseView>, page: int, pageSize: int, total: int, totalPages: int)

  /** The page of matching expenses the listing returns, newest first. */
  function PageOf(es: seq<Expense>, query: ExpenseQuery, page: int): seq<Expense> {
    Limit(NewestFirst(Matching(es, query)), PageSize, Offset(page))
  }

  /** `GET /api/expenses`. */
  method List(db: Ledger, text: ExpenseQueryText) returns (r: Result<Listing, Thrown>)
    ensures ParseExpenseQuery(text).Failure? ==> r == Failure(ValidationError(ParseExpenseQuery(text).error))
    ensures ParseExpenseQuery(text).Success? && ParseExpenseQuery(text).value.page.None? ==>
      r.Failure? && Classify(r.error).status == 500
    ensures ParseExpenseQuery(text).Success? && ParseExpenseQuery(text).value.page.Some? ==>
      var query := ParseExpenseQuery(text).value;
      var total := |Matching(db.expenses, query)|;
      r == Success(Listing(Views(db.categories, PageOf(db.expenses, query, query.page.value)),
                           query.page.value, PageSize, total, TotalPages(total)))
  {
    var parsed := ParseExpenseQuery(text);
    if parsed.Failure? {
      return Failure(ValidationError(parsed.error));
    }
    var query := parsed.value;
    var filters := BuildWhere(query);
    if query.page.None? {
      return Failure(StoreError("datatype mismatch"));
    }
    var page := query.page.value;
    var rows := Select(db.expenses, filters);
    SelectIsMatching(db.expenses, filters, query);
    var total := |rows|;
    var shown := Limit(NewestFirst(rows), PageSize, Offset(page));
    r := Success(Listing(Views(db.categories, shown), page, PageSize, total, TotalPages(total)));
  }

  /** Every listed expense meets every filter the query switches on. */
  lemma ListedAreWanted(es: seq<Expense>, query: ExpenseQuery, page: int, e: Expense)
    requires Literal(query) && e in PageOf(es, query, page)
    ensures e in es && Wanted(query, e)
  {
    var rows := Matching(es, query);
    var sorted := NewestFirst(rows);
    assert e in sorted;
    assert e in multiset(sorted);
    assert e in rows;
    MatchesMeansWanted(query, e);
  }

  /** A page lists its expenses newest first. */
  lemma PageIsNewestFirst(es: seq<Expense>, query: ExpenseQuery, page: int)
    ensures Sorted(PageOf(es, query, page), NewerOrSame)
  {
    var sorted := NewestFirst(Matching(es, query));
    var p := PageOf(es, query, page);
    var lo := if Offset(page) < 0 then 0 else if Offset(page) > |sorted| then |sorted| else Offset(page);
    assert forall i :: 0 <= i < |p| ==> p[i] == sorted[lo + i];
  }

  // ---- one expense --------------------------------------------------------

  const ExpenseNotFound := AppError("Expense not found", 404, "NOT_FOUND")
  const CategoryNotFound := AppError("Category not found", 400, "INVALID_CATEGORY")
  /** What the driver throws when a fresh id collides with a stored one. */
  const ExpenseIdTaken := StoreError("UNIQUE constraint failed: expenses.id")

  /** `text || null`: a stored text is never empty; an absent or empty one is stored as NULL. */
  function NullIfEmpty(t: Option<string>): (r: Option<string>)
    ensures r.Some? ==> r.value != "" && r == t
    ensures t.Some? && t.value != "" ==> r == t
  {
    if t.None? || t.value == "" then None else t
  }

  /** The row the INSERT of a create writes. */
  function NewExpense(id: string, input: ExpenseInput, now: string): Expense {
    Expense(id, ToCents(input.amount), input.date, NullIfEmpty(input.merchant), NullIfEmpty(input.description),
      input.paymentMethod, input.categoryId, now, now)
  }

  /** The row the UPDATE writes over `stored`: every column but `id` and `created_at` is replaced. */
  function Revised(stored: Expense, input: ExpenseInput, now: string): Expense {
    Expense(stored.id, ToCents(input.amount), input.date, NullIfEmpty(input.merchant), NullIfEmpty(input.description),
      input.paymentMethod, input.categoryId, stored.createdAt, now)
  }

  /** `UPDATE expenses SET ... WHERE id = ?`. */
  function ReviseWhere(es: seq<Expense>, id: string, input: ExpenseInput, now: string): (r: seq<Expense>)
    ensures |r| == |es|
    ensures forall i :: 0 <= i < |es| ==> r[i] == if es[i].id == id then Revised(es[i], input, now) else es[i]
  {
    seq(|es|, i requires 0 <= i < |es| => if es[i].id == id then Revised(es[i], input, now) else es[i])
  }

  /**
   * A created row holds the parsed input: the amount as `toCents` gives it, the same
   * creation and update time, and NULL for a missing or empty text. Its
   * amount reads back as the dollars sent when they have at most two decimals.
   */
  lemma NewExpenseStoresInput(id: string, input: ExpenseInput, now: string, cents: int)
    ensures var e := NewExpense(id, input, now);
      && e.id == id && e.amountCents == ToCents(input.amount)
      && (input.amount * 100.0 == cents as real ==> e.amountCents == cents && ToDollars(e.amountCents) == input.amount)
      && e.createdAt == e.updatedAt == now
      && e.date == input.date && e.categoryId == input.categoryId && e.paymentMethod == input.paymentMethod
      && (e.merchant.None? <==> input.merchant.None? || input.merchant.value == "")
      && (e.description.None? <==> input.description.None? || input.description.value == "")
  {
    if input.amount * 100.0 == cents as real {
      DollarsOfCents(input.amount, cents);
    }
  }

  /**
   * Under unique ids an update changes exactly the row with that id: it keeps
   * its id and creation time and takes everything else from the input.
   */
  lemma ReviseChangesOneRow(es: seq<Expense>, id: string, input: ExpenseInput, now: string, i: nat)
    requires UniqueKeys(es, ExpenseId) && i < |es| && es[i].id == id
    ensures var r := ReviseWhere(es, id, input, now);
      && r[i].id == es[i].id && r[i].createdAt == es[i].createdAt && r[i].updatedAt == now
      && r[i].amountCents == ToCents(input.amount) && r[i].date == input.date && r[i].categoryId == input.categoryId
      && (forall j :: 0 <= j < |es| && j != i ==> r[j] == es[j])
    ensures Keys(ReviseWhere(es, id, input, now), ExpenseId) == Keys(es, ExpenseId)
  {
    var r := ReviseWhere(es, id, input, now);
    forall j | 0 <= j < |es| && j != i ensures r[j] == es[j] {
      if j < i { assert ExpenseId(es[j]) != ExpenseId(es[i]); }
      if j > i { assert ExpenseId(es[i]) != ExpenseId(es[j]); }
    }
    SameKeys(es, r, ExpenseId);
  }

  /** An update with a known category and a valid amount and date keeps the tables consistent. */
  lemma ReviseKeepsIntegrity(cats: seq<Category>, es: seq<Expense>, id: string, input: ExpenseInput, now: string)
    requires Integrity(cats, es)
    requires input.categoryId in Keys(cats, CategoryId) && input.amount > 0.0 && IsDateText(input.date)
    ensures Integrity(cats, ReviseWhere(es, id, input, now))
  {
    var r := ReviseWhere(es, id, input, now);
    SameKeys(es, r, ExpenseId);
    forall e | e in r
      ensures e.categoryId in Keys(cats, CategoryId) && e.amountCents >= 0 && IsDateText(e.date)
    {
      var j :| 0 <= j < |r| && r[j] == e;
      assert es[j] in es;
    }
  }

  /** `GET /api/expenses/:id`. */
  method Get(db: Ledger, id: string) returns (r: Result<ExpenseView, Thrown>)
    ensures !IsUuid(id) ==> r == Failure(ValidationError([ExpenseIdMessage]))
    ensures IsUuid(id) && id !in Keys(db.expenses, ExpenseId) ==> r == Failure(ExpenseNotFound)
    ensures IsUuid(id) && id in Keys(db.expenses, ExpenseId) ==>
      r.Success? && r.value.expense in db.expenses && r.value.expense.id == id
      && r.value == View(db.categories, r.value.expense)
    ensures IsUuid(id) && UniqueKeys(db.expenses, ExpenseId) ==>
      forall i :: 0 <= i < |db.expenses| && db.expenses[i].id == id ==> r == Success(View(db.categories, db.expenses[i]))
  {
    var parsed := ParseId(id, ExpenseIdMessage);
    if parsed.Failure? {
      return Failure(ValidationError(parsed.error));
    }
    var found := Lookup(db.expenses, ExpenseId, id);
    if found.None? {
      return Failure(ExpenseNotFound);
    }
    r := Success(View(db.categories, found.value));
    if UniqueKeys(db.expenses, ExpenseId) {
      forall i | 0 <= i < |db.expenses| && db.expenses[i].id == id
        ensures found == Some(db.expenses[i])
      {
        LookupUnique(db.expenses, ExpenseId, i);
      }
    }
  }

  /** `POST /api/expenses`, with the id the handler draws and the current time passed in. */
  method Create(db: Ledger, body: ExpenseBody, freshId: string, now: string) returns (r: Result<ExpenseView, Thrown>)
    requires db.Valid()
    modifies db
    ensures db.Valid()
    ensures db.categories == old(db.categories)
    ensures var parsed := ParseExpenseBody(body);
      if parsed.Failure? then
        r == Failure(ValidationError(parsed.error)) && db.expenses == old(db.expenses)
      else if parsed.value.categoryId !in Keys(db.categories, CategoryId) then
        r == Failure(CategoryNotFound) && db.expenses == old(db.expenses)
      else if freshId in Keys(old(db.expenses), ExpenseId) then
        r == Failure(ExpenseIdTaken) && db.expenses == old(db.expenses)
      else
        var e := NewExpense(freshId, parsed.value, now);
        db.expenses == old(db.expenses) + [e] && r == Success(View(db.categories, e))
  {
    var parsed := ParseExpenseBody(body);
    if parsed.Failure? {
      return Failure(ValidationError(parsed.error));
    }
    var input := parsed.value;
    if Lookup(db.categories, CategoryId, input.categoryId).None? {
      return Failure(CategoryNotFound);
    }
    if Lookup(db.expenses, ExpenseId, freshId).Some? {
      return Failure(ExpenseIdTaken);
    }
    var e := NewExpense(freshId, input, now);
    AppendKeepsIntegrity(db.categories, db.expenses, e);
    db.expenses := db.expenses + [e];
    r := Success(View(db.categories, e));
  }

  /** `PUT /api/expenses/:id`: the id is checked before the body, the expense before its category. */
  method Update(db: Ledger, id: string, body: ExpenseBody, now: string) returns (r: Result<ExpenseView, Thrown>)
    requires db.Valid()
    modifies db
    ensures db.Valid()
    ensures db.categories == old(db.categories)
    ensures r.Failure? ==> db.expenses == old(db.expenses)
    ensures !IsUuid(id) ==> r == Failure(ValidationError([ExpenseIdMessage]))
    ensures IsUuid(id) && ParseExpenseBody(body).Failure? ==>
      r == Failure(ValidationError(ParseExpenseBody(body).error))
    ensures IsUuid(id) && ParseExpenseBody(body).Success? && id !in Keys(old(db.expenses), ExpenseId) ==>
      r == Failure(ExpenseNotFound)
    ensures IsUuid(id) && ParseExpenseBody(body).Success? && id in Keys(old(db.expenses), ExpenseId) ==>
      var input := ParseExpenseBody(body).value;
      if input.categoryId !in Keys(db.categories, CategoryId) then r == Failure(CategoryNotFound)
      else
        && db.expenses == ReviseWhere(old(db.expenses), id, input, now)
        && r == Success(View(db.categories, Revised(Lookup(old(db.expenses), ExpenseId, id).value, input, now)))
  {
    var checkedId := ParseId(id, ExpenseIdMessage);
    if checkedId.Failure? {
      return Failure(ValidationError(checkedId.error));
    }
    var parsed := ParseExpenseBody(body);
    if parsed.Failure? {
      return Failure(ValidationError(parsed.error));
    }
    var input := parsed.value;
    var existing := Lookup(db.expenses, ExpenseId, id);
    if existing.None? {
      return Failure(ExpenseNotFound);
    }
    if Lookup(db.categories, CategoryId, input.categoryId).None? {
      return Failure(CategoryNotFound);
    }
    ReviseKeepsIntegrity(db.categories, db.expenses, id, input, now);
    db.expenses := ReviseWhere(db.expenses, id, input, now);
    r := Success(View(db.categories, Revised(existing.value, input, now)));
  }

  /** `DELETE /api/expenses/:id`. */
  method Delete(db: Ledger, id: string) returns (r: Result<(), Thrown>)
    requires db.Valid()
    modifies db
    ensures db.Valid()
    ensures db.categories == old(db.categories)
    ensures !IsUuid(id) ==> r == Failure(ValidationError([ExpenseIdMessage])) && db.expenses == old(db.expenses)
    ensures IsUuid(id) && id !in Keys(old(db.expenses), ExpenseId) ==>
      r == Failure(ExpenseNotFound) && db.expenses == old(db.expenses)
    ensures IsUuid(id) && id in Keys(old(db.expenses), ExpenseId) ==>
      && r == Success(())
      && db.expenses == DeleteWhere(old(db.expenses), ExpenseId, id)
      && |db.expenses| == |old(db.expenses)| - 1
      && (forall e :: e in db.expenses <==> e in old(db.expenses) && e.id != id)
  {
    var checkedId := ParseId(id, ExpenseIdMessage);
    if checkedId.Failure? {
      return Failure(ValidationError(checkedId.error));
    }
    if Lookup(db.expenses, ExpenseId, id).None? {
      return Failure(ExpenseNotFound);
    }
    db.expenses := DeleteWhere(db.expenses, ExpenseId, id);
    r := Success(());
  }
}
