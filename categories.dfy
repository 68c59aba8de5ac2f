/**
 * The category routes: names are stored normalised (lower case, trimmed),
 * shown title-cased, and kept unique; the reserved `uncategorized`
 * category can be neither renamed nor deleted, and deleting any other
 * category moves its expenses to it.
 */
module CategoryRoutes {
  import opened Wrappers
  import opened Text
  import opened Sql
  import opened Sorting
  import opened Schemas
  import opened ErrorHandler
  import opened Store

  // ---- names ----------------------------------------------------------------

  /**
   * `formatName`: `name.toLowerCase().trim()`. A formatted name has no
   * upper-case letter, no white space at either end, and is no longer than
   * the name.
   */
  function FormatName(name: string): (f: string)
    ensures NoUpper(f)
    ensures f == [] || (!IsSpace(f[0]) && !IsSpace(f[|f| - 1]))
    ensures |f| <= |name|
  {
    TrimOfNoUpper(Lower(name));
    Trim(Lower(name))
  }

  lemma TrimOfNoUpper(s: string)
    requires NoUpper(s)
    ensures NoUpper(Trim(s))
  {
    TrimIsInfix(s);
    var i := LeadingSpaces(s);
    forall k | 0 <= k < |Trim(s)| ensures !IsUpper(Trim(s)[k]) {
      assert Trim(s)[k] == s[i + k];
    }
  }

  /** Formatting a formatted name changes nothing. */
  lemma FormatNameIdempotent(name: string)
    ensures FormatName(FormatName(name)) == FormatName(name)
  {
    var f := FormatName(name);
    LowerFixesNoUpper(f);
    TrimIdempotent(Lower(name));
  }

  /** Formatting ignores case and surrounding white space, so the schema's trim makes no difference. */
  lemma FormatNameOfTrim(name: string)
    ensures FormatName(Trim(name)) == FormatName(name)
    ensures FormatName(Lower(name)) == FormatName(name)
  {
    TrimLowerCommute(name);
    TrimIdempotent(Lower(name));
    assert Lower(Lower(name)) == Lower(name);
  }

  /** Number of leading characters of `s` that are not white space. */
  function NonSpaceRun(s: string): (k: nat)
    ensures k <= |s|
    ensures forall i :: 0 <= i < k ==> !IsSpace(s[i])
    ensures k < |s| ==> IsSpace(s[k])
  {
    if |s| > 0 && !IsSpace(s[0]) then 1 + NonSpaceRun(s[1..]) else 0
  }

  lemma NonSpaceRunUnique(s: string, k: nat)
    requires k <= |s|
    requires forall i :: 0 <= i < k ==> !IsSpace(s[i])
    requires k < |s| ==> IsSpace(s[k])
    ensures NonSpaceRun(s) == k
  {
  }

  /** `txt.charAt(0).toUpperCase() + txt.substr(1).toLowerCase()`. */
  function Capitalize(w: string): (r: string)
    requires w != []
    ensures |r| == |w|
    ensures !IsLowerLetter(r[0]) && NoUpper(r[1..])
  {
    [ToUpper(w[0])] + Lower(w[1..])
  }

  /**
   * `toTitleCase`: `str.replace(/\w\S*\/g, ...)`. Scanning left to right, a
   * word character starts a match that runs to the next white space; each
   * match is capitalised, and everything between matches is kept.
   */
  function TitleCase(s: string): (r: string)
    ensures |r| == |s|
    decreases |s|
  {
    if s == [] then []
    else if !IsWordChar(s[0]) then [s[0]] + TitleCase(s[1..])
    else
      var n := 1 + NonSpaceRun(s[1..]);
      Capitalize(s[..n]) + TitleCase(s[n..])
  }

  lemma SpaceIsNotWord(c: char)
    requires IsSpace(c)
    ensures !IsWordChar(c)
  {
  }

  /** White space and other non-word characters pass through unchanged. */
  lemma TitleCaseKeepsNonWord(c: char, rest: string)
    requires !IsWordChar(c)
    ensures TitleCase([c] + rest) == [c] + TitleCase(rest)
  {
    assert ([c] + rest)[1..] == rest;
  }

  /** A word that starts with a word character is capitalised, up to the white space that ends it. */
  lemma TitleCaseWord(w: string, sp: char, rest: string)
    requires w != [] && IsWordChar(w[0]) && (forall i :: 0 <= i < |w| ==> !IsSpace(w[i])) && IsSpace(sp)
    ensures TitleCase(w + [sp] + rest) == Capitalize(w) + [sp] + TitleCase(rest)
  {
    var s := w + [sp] + rest;
    NonSpaceRunUnique(s[1..], |w| - 1);
    assert s[..|w|] == w;
    assert s[|w|..] == [sp] + rest;
    SpaceIsNotWord(sp);
    TitleCaseKeepsNonWord(sp, rest);
  }

  /** A last word is capitalised to its end. */
  lemma TitleCaseLastWord(w: string)
    requires w != [] && IsWordChar(w[0]) && (forall i :: 0 <= i < |w| ==> !IsSpace(w[i]))
    ensures TitleCase(w) == Capitalize(w)
  {
    NonSpaceRunUnique(w[1..], |w| - 1);
    assert w[..|w|] == w && w[|w|..] == [];
  }

  lemma LowerConcat(a: string, b: string)
    ensures Lower(a + b) == Lower(a) + Lower(b)
  {
  }

  lemma CapitalizeKeepsLetters(w: string)
    requires w != []
    ensures Lower(Capitalize(w)) == Lower(w)
  {
    var c := Capitalize(w);
    forall i | 0 <= i < |w| ensures Lower(c)[i] == Lower(w)[i] {
      if i == 0 {
        assert c[0] == ToUpper(w[0]);
      } else {
        assert c[i] == Lower(w[1..])[i - 1] == ToLower(w[i]);
      }
      CaseMapsAbsorb(w[i]);
    }
  }

  /** Title-casing changes only the case of letters. */
  lemma {:induction false} TitleCaseKeepsLetters(s: string)
    ensures Lower(TitleCase(s)) == Lower(s)
    decreases |s|
  {
    if s != [] {
      if !IsWordChar(s[0]) {
        TitleCaseKeepsLetters(s[1..]);
        LowerConcat([s[0]], TitleCase(s[1..]));
        LowerConcat([s[0]], s[1..]);
        assert s == [s[0]] + s[1..];
      } else {
        var n := 1 + NonSpaceRun(s[1..]);
        var w := s[..n];
        TitleCaseKeepsLetters(s[n..]);
        LowerConcat(Capitalize(w), TitleCase(s[n..]));
        LowerConcat(w, s[n..]);
        assert s == w + s[n..];
        CapitalizeKeepsLetters(w);
      }
    }
  }

  /** Title-casing a title-cased text changes nothing. */
  lemma {:induction false} TitleCaseIdempotent(s: string)
    ensures TitleCase(TitleCase(s)) == TitleCase(s)
    decreases |s|
  {
    if s != [] {
      var t := TitleCase(s);
      if !IsWordChar(s[0]) {
        TitleCaseIdempotent(s[1..]);
        TitleCaseKeepsNonWord(s[0], TitleCase(s[1..]));
      } else {
        var n := 1 + NonSpaceRun(s[1..]);
        var w := s[..n];
        var c := Capitalize(w);
        var rest := TitleCase(s[n..]);
        assert t == c + rest;
        assert t[0] == ToUpper(s[0]);
        assert n < |s| ==> rest[0] == s[n] by {
          if n < |s| {
            SpaceIsNotWord(s[n]);
            assert s[n..] == [s[n]] + s[n + 1..];
            TitleCaseKeepsNonWord(s[n], s[n + 1..]);
          }
        }
        forall i | 0 <= i < n - 1 ensures !IsSpace(t[1..][i]) {
          assert t[1..][i] == c[i + 1] == ToLower(w[i + 1]);
          assert w[i + 1] == s[1..][i];
        }
        NonSpaceRunUnique(t[1..], n - 1);
        assert t[..n] == c && t[n..] == rest;
        assert Capitalize(c) == c by {
          CaseMapsAbsorb(w[0]);
          assert c[1..] == Lower(w[1..]);
          assert Lower(Lower(w[1..])) == Lower(w[1..]);
        }
        TitleCaseIdempotent(s[n..]);
      }
    }
  }

  // ---- the routes -----------------------------------------------------------

  /** A category as the routes return it. */
  datatype CategoryView = CategoryView(category: Category, displayName: string)

  function ViewOf(c: Category): (v: CategoryView)
    ensures v.category == c && v.displayName == TitleCase(c.name)
  {
    CategoryView(c, TitleCase(c.name))
  }

  /** `ORDER BY name ASC`. */
  predicate NameLe(a: Category, b: Category) {
    TextLe(a.name, b.name)
  }

  lemma NameLeIsPreorder()
    ensures IsTotalPreorder(NameLe)
  {
    forall a, b ensures NameLe(a, b) || NameLe(b, a) {
      TextLeTotal(a.name, b.name);
    }
    forall a, b, c | NameLe(a, b) && NameLe(b, c) ensures NameLe(a, c) {
      TextLeTransitive(a.name, b.name, c.name);
    }
  }

  function Categories(vs: seq<CategoryView>): (r: seq<Category>)
    ensures |r| == |vs| && forall i :: 0 <= i < |vs| ==> r[i] == vs[i].category
  {
    seq(|vs|, i requires 0 <= i < |vs| => vs[i].category)
  }

  /** `GET /api/categories`: every category once, by ascending name, each with its display name. */
  function List(cats: seq<Category>): (r: seq<CategoryView>)
    ensures multiset(Categories(r)) == multiset(cats)
    ensures forall i, j :: 0 <= i < j < |r| ==> TextLe(r[i].category.name, r[j].category.name)
    ensures forall i :: 0 <= i < |r| ==> r[i].displayName == TitleCase(r[i].category.name)
  {
    NameLeIsPreorder();
    var sorted := Sort(cats, NameLe);
    var r := seq(|sorted|, i requires 0 <= i < |sorted| => ViewOf(sorted[i]));
    assert Categories(r) == sorted;
    r
  }

  const CategoryExists := AppError("Category already exists", 400, "DUPLICATE")
  const CategoryNotFound := AppError("Category not found", 404, "NOT_FOUND")
  const RenameForbidden := AppError("Cannot rename the uncategorized category", 400, "FORBIDDEN")
  const NameTaken := AppError("Category name already exists", 400, "DUPLICATE")
  const DeleteForbidden := AppError("Cannot delete the uncategorized category", 400, "FORBIDDEN")
  const UncategorizedMissing := AppError("Uncategorized category not found", 500, "SERVER_ERROR")
  /** What the driver throws when a fresh id collides with a stored one. */
  const CategoryIdTaken := StoreError("UNIQUE constraint failed: categories.id")

  /** `SELECT id FROM categories WHERE name = ? AND id != ?` finds a row. */
  predicate NameTakenByOther(cats: seq<Category>, name: string, id: string) {
    exists i: nat | i < |cats| :: cats[i].name == name && cats[i].id != id
  }

  /** Under unique names, a category's own name is never taken by another. */
  lemma OwnNameIsFree(cats: seq<Category>, i: nat)
    requires UniqueKeys(cats, CategoryId) && UniqueKeys(cats, CategoryName) && i < |cats|
    ensures !NameTakenByOther(cats, cats[i].name, cats[i].id)
  {
  }

  /** `UPDATE categories SET name = ? WHERE id = ?`. */
  function RenameWhere(cats: seq<Category>, id: string, name: string): (r: seq<Category>)
    ensures |r| == |cats|
    ensures forall i :: 0 <= i < |cats| ==> r[i] == if cats[i].id == id then cats[i].(name := name) else cats[i]
  {
    seq(|cats|, i requires 0 <= i < |cats| => if cats[i].id == id then cats[i].(name := name) else cats[i])
  }

  /** `UPDATE expenses SET category_id = ? WHERE category_id = ?`. */
  function Reassign(es: seq<Expense>, from: string, to: string): (r: seq<Expense>)
    ensures |r| == |es|
    ensures forall i :: 0 <= i < |es| ==> r[i] == if es[i].categoryId == from then es[i].(categoryId := to) else es[i]
  {
    seq(|es|, i requires 0 <= i < |es| => if es[i].categoryId == from then es[i].(categoryId := to) else es[i])
  }

  /** After the reassignment no expense refers to `from`, unless `from` is `to`, and ids are unchanged. */
  lemma ReassignMovesAll(es: seq<Expense>, from: string, to: string)
    requires from != to
    ensures forall e | e in Reassign(es, from, to) :: e.categoryId != from
    ensures Keys(Reassign(es, from, to), ExpenseId) == Keys(es, ExpenseId)
    ensures UniqueKeys(es, ExpenseId) ==> UniqueKeys(Reassign(es, from, to), ExpenseId)
  {
    SameKeys(es, Reassign(es, from, to), ExpenseId);
  }

  /** The reserved category, if present, is still there. */
  predicate KeepsReserved(before: seq<Category>, after: seq<Category>) {
    forall c | c in before && c.name == Uncategorized :: c in after
  }

  /** `POST /api/categories`, with the id the handler draws and the current time passed in. */
  method Create(db: Ledger, name: string, freshId: string, now: string) returns (r: Result<CategoryView, Thrown>)
    requires db.Valid()
    modifies db
    ensures db.Valid()
    ensures db.expenses == old(db.expenses)
    ensures KeepsReserved(old(db.categories), db.categories)
    ensures var parsed := ParseCategoryName(name);
      if parsed.Failure? then
        r == Failure(ValidationError(parsed.error)) && db.categories == old(db.categories)
      else if FormatName(parsed.value) in Keys(old(db.categories), CategoryName) then
        r == Failure(CategoryExists) && db.categories == old(db.categories)
      else if freshId in Keys(old(db.categories), CategoryId) then
        r == Failure(CategoryIdTaken) && db.categories == old(db.categories)
      else
        var c := Category(freshId, FormatName(parsed.value), now);
        db.categories == old(db.categories) + [c] && r == Success(ViewOf(c))
  {
    var parsed := ParseCategoryName(name);
    if parsed.Failure? {
      return Failure(ValidationError(parsed.error));
    }
    var normalized := FormatName(parsed.value);
    if Lookup(db.categories, CategoryName, normalized).Some? {
      return Failure(CategoryExists);
    }
    if Lookup(db.categories, CategoryId, freshId).Some? {
      return Failure(CategoryIdTaken);
    }
    var c := Category(freshId, normalized, now);
    UniqueSnoc(db.categories, c, CategoryId);
    UniqueSnoc(db.categories, c, CategoryName);
    db.categories := db.categories + [c];
    r := Success(ViewOf(c));
  }

  /** `PUT /api/categories/:id`: not found, then reserved, then a name another category holds. */
  method Rename(db: Ledger, id: string, name: string) returns (r: Result<CategoryView, Thrown>)
    requires db.Valid()
    modifies db
    ensures db.Valid()
    ensures db.expenses == old(db.expenses)
    ensures KeepsReserved(old(db.categories), db.categories)
    ensures Keys(db.categories, CategoryId) == Keys(old(db.categories), CategoryId)
    ensures var parsed := ParseCategoryName(name);
      var found := Lookup(old(db.categories), CategoryId, id);
      if !IsUuid(id) then
        r == Failure(ValidationError([CategoryIdMessage])) && db.categories == old(db.categories)
      else if parsed.Failure? then
        r == Failure(ValidationError(parsed.error)) && db.categories == old(db.categories)
      else if found.None? then
        r == Failure(CategoryNotFound) && db.categories == old(db.categories)
      else if found.value.name == Uncategorized then
        r == Failure(RenameForbidden) && db.categories == old(db.categories)
      else if NameTakenByOther(old(db.categories), FormatName(parsed.value), id) then
        r == Failure(NameTaken) && db.categories == old(db.categories)
      else
        && db.categories == RenameWhere(old(db.categories), id, FormatName(parsed.value))
        && r == Success(ViewOf(Category(id, FormatName(parsed.value), found.value.createdAt)))
    ensures var parsed := ParseCategoryName(name);
      var found := Lookup(old(db.categories), CategoryId, id);
      (IsUuid(id) && parsed.Success? && found.Some? && found.value.name != Uncategorized
       && FormatName(parsed.value) == found.value.name) ==> r.Success?
  {
    var checkedId := ParseId(id, CategoryIdMessage);
    if checkedId.Failure? {
      return Failure(ValidationError(checkedId.error));
    }
    var parsed := ParseCategoryName(name);
    if parsed.Failure? {
      return Failure(ValidationError(parsed.error));
    }
    var normalized := FormatName(parsed.value);
    var found := Lookup(db.categories, CategoryId, id);
    if found.None? {
      return Failure(CategoryNotFound);
    }
    var category := found.value;
    ghost var k := LookupIndex(db.categories, CategoryId, id);
    if category.name == Uncategorized {
      return Failure(RenameForbidden);
    }
    OwnNameIsFree(db.categories, k);
    if NameTakenByOther(db.categories, normalized, id) {
      return Failure(NameTaken);
    }
    ghost var before := db.categories;
    db.categories := RenameWhere(db.categories, id, normalized);
    r := Success(ViewOf(Category(id, normalized, category.createdAt)));
    RenameKeepsIntegrity(before, db.expenses, id, normalized, k);
  }

  lemma RenameKeepsIntegrity(cats: seq<Category>, es: seq<Expense>, id: string, name: string, k: nat)
    requires Integrity(cats, es) && k < |cats| && cats[k].id == id && cats[k].name != Uncategorized
    requires !NameTakenByOther(cats, name, id)
    ensures Integrity(RenameWhere(cats, id, name), es)
    ensures KeepsReserved(cats, RenameWhere(cats, id, name))
    ensures Keys(RenameWhere(cats, id, name), CategoryId) == Keys(cats, CategoryId)
  {
    var r := RenameWhere(cats, id, name);
    SameKeys(cats, r, CategoryId);
    forall i | 0 <= i < |cats| && i != k ensures r[i] == cats[i] {
      if i < k { assert CategoryId(cats[i]) != CategoryId(cats[k]); }
      if i > k { assert CategoryId(cats[k]) != CategoryId(cats[i]); }
    }
    forall i, j | 0 <= i < j < |r| ensures CategoryName(r[i]) != CategoryName(r[j]) {
      if i != k && j != k {
        assert CategoryName(cats[i]) != CategoryName(cats[j]);
      }
    }
    forall c | c in cats && c.name == Uncategorized ensures c in r {
      var i :| 0 <= i < |cats| && cats[i] == c;
      assert r[i] == c;
    }
  }

  /**
   * `DELETE /api/categories/:id`: not found, then reserved, then a missing
   * reserved category; otherwise its expenses move to `uncategorized` and
   * the row goes. The two statements are taken as one step.
   */
  method Delete(db: Ledger, id: string) returns (r: Result<(), Thrown>)
    requires db.Valid()
    modifies db
    ensures db.Valid()
    ensures KeepsReserved(old(db.categories), db.categories)
    ensures var found := Lookup(old(db.categories), CategoryId, id);
      var reserved := Lookup(old(db.categories), CategoryName, Uncategorized);
      if !IsUuid(id) then
        r == Failure(ValidationError([CategoryIdMessage])) && unchanged(db)
      else if found.None? then
        r == Failure(CategoryNotFound) && unchanged(db)
      else if found.value.name == Uncategorized then
        r == Failure(DeleteForbidden) && unchanged(db)
      else if reserved.None? then
        r == Failure(UncategorizedMissing) && unchanged(db)
      else
        && r == Success(())
        && db.expenses == Reassign(old(db.expenses), id, reserved.value.id)
        && db.categories == DeleteWhere(old(db.categories), CategoryId, id)
    ensures r.Success? ==>
      && |db.expenses| == |old(db.expenses)|
      && |db.categories| == |old(db.categories)| - 1
      && id !in Keys(db.categories, CategoryId)
      && (forall e | e in db.expenses :: e.categoryId != id)
  {
    var checkedId := ParseId(id, CategoryIdMessage);
    if checkedId.Failure? {
      return Failure(ValidationError(checkedId.error));
    }
    var found := Lookup(db.categories, CategoryId, id);
    if found.None? {
      return Failure(CategoryNotFound);
    }
    if found.value.name == Uncategorized {
      return Failure(DeleteForbidden);
    }
    var reserved := Lookup(db.categories, CategoryName, Uncategorized);
    if reserved.None? {
      return Failure(UncategorizedMissing);
    }
    var target := reserved.value.id;
    DeleteKeepsIntegrity(db.categories, db.expenses, id, reserved.value);
    db.expenses := Reassign(db.expenses, id, target);
    db.categories := DeleteWhere(db.categories, CategoryId, id);
    r := Success(());
  }

  lemma DeleteKeepsIntegrity(cats: seq<Category>, es: seq<Expense>, id: string, reserved: Category)
    requires Integrity(cats, es) && reserved in cats && reserved.name == Uncategorized
    requires id in Keys(cats, CategoryId)
    requires forall c | c in cats && c.id == id :: c.name != Uncategorized
    ensures reserved.id != id
    ensures Integrity(DeleteWhere(cats, CategoryId, id), Reassign(es, id, reserved.id))
    ensures KeepsReserved(cats, DeleteWhere(cats, CategoryId, id))
  {
    var es2 := Reassign(es, id, reserved.id);
    var cats2 := DeleteWhere(cats, CategoryId, id);
    ReassignMovesAll(es, id, reserved.id);
    KeyOfRow(cats, CategoryId, reserved);
    ReassignKeepsRows(es, id, reserved.id, Keys(cats, CategoryId));
    assert Keys(cats2, CategoryId) == Keys(cats, CategoryId) - {id};
    assert UniqueKeys(cats2, CategoryId) && UniqueKeys(cats2, CategoryName) && UniqueKeys(es2, ExpenseId);
    IntegrityOf(cats2, es2);
  }

  /** Moving expenses off `from` onto another known category keeps every row's references and values valid. */
  lemma ReassignKeepsRows(es: seq<Expense>, from: string, to: string, known: set<string>)
    requires forall e | e in es :: e.categoryId in known && e.amountCents >= 0 && IsDateText(e.date)
    requires to in known && to != from
    ensures forall e | e in Reassign(es, from, to) ::
      e.categoryId in known - {from} && e.amountCents >= 0 && IsDateText(e.date)
  {
    var es2 := Reassign(es, from, to);
    forall e | e in es2 ensures e.categoryId in known - {from} && e.amountCents >= 0 && IsDateText(e.date) {
      var i :| 0 <= i < |es2| && es2[i] == e;
      assert es[i] in es;
    }
  }
}
