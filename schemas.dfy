/**
 * The request schemas, as predicates and parsers. A parser returns the
 * parsed value, or every issue message in the order the validation library
 * reports them (fields in declaration order, checks in the order written);
 * the error handler shows only the first one.
 */
module Schemas {
  import opened Wrappers
  import opened Text

  /** The `payment_method` enumeration. */
  datatype PaymentMethod = Card | Cash | Other

  function PaymentMethodOf(s: string): (r: Option<PaymentMethod>)
    ensures r.Some? <==> s in {"CARD", "CASH", "OTHER"}
  {
    if s == "CARD" then Some(Card) else if s == "CASH" then Some(Cash) else if s == "OTHER" then Some(Other) else None
  }

  /** `/^\d{4}-\d{2}-\d{2}$/`: shape only, no calendar check. A date begins with its month. */
  predicate IsDateText(s: string)
    ensures IsDateText(s) ==> |s| == 10 && IsMonthText(s[..7])
  {
    |s| == 10 && s[4] == '-' && s[7] == '-'
    && forall i :: 0 <= i < 10 && i != 4 && i != 7 ==> IsDigit(s[i])
  }

  /** `/^\d{4}-\d{2}$/`: four digits of year, a dash, two digits of month. */
  predicate IsMonthText(s: string)
    ensures IsMonthText(s) <==> |s| == 7 && AllDigits(s[..4]) && s[4] == '-' && AllDigits(s[5..])
  {
    |s| == 7 && s[4] == '-' && forall i :: 0 <= i < 7 && i != 4 ==> IsDigit(s[i])
  }

  predicate IsHexDigit(c: char) { IsDigit(c) || 'a' <= c <= 'f' || 'A' <= c <= 'F' }

  /**
   * The library's `uuid()` check: five groups of 8, 4, 4, 4 and 12
   * hexadecimal digits, so the dashes sit exactly at 8, 13, 18 and 23.
   */
  predicate IsUuid(s: string)
    ensures IsUuid(s) ==> |s| == 36 && forall i :: 0 <= i < |s| ==> (s[i] == '-' <==> i in {8, 13, 18, 23})
  {
    |s| == 36 && s[8] == '-' && s[13] == '-' && s[18] == '-' && s[23] == '-'
    && forall i :: 0 <= i < 36 && i != 8 && i != 13 && i != 18 && i != 23 ==> IsHexDigit(s[i])
  }

  const AmountMessage := "Amount must be greater than 0"
  const DateMessage := "Date must be YYYY-MM-DD format"
  const CategoryIdMessage := "Invalid category ID"
  const ExpenseIdMessage := "Invalid expense ID"
  const MonthMessage := "Month must be YYYY-MM format"
  const NameRequiredMessage := "Category name is required"
  const NameTooLongMessage := "Category name too long"
  const PasswordMessage := "Password is required"
  const EmailMessage := "Invalid email address"
  /** Messages the library supplies when a check names none. */
  const RequiredMessage := "Required"
  const UuidMessage := "Invalid uuid"

  const AtMost100Message := "String must contain at most 100 character(s)"
  const AtMost500Message := "String must contain at most 500 character(s)"

  function EnumMessage(received: string): string {
    "Invalid enum value. Expected 'CARD' | 'CASH' | 'OTHER', received '" + received + "'"
  }

  /** The issue of one check: none when it passes. */
  function Check(ok: bool, message: string): (r: seq<string>)
    ensures ok <==> r == []
    ensures !ok ==> r == [message]
  {
    if ok then [] else [message]
  }

  /** The issues of three checks in order: the first issue is that of the first check that fails. */
  function Issues3(ok1: bool, m1: string, ok2: bool, m2: string, ok3: bool, m3: string): (r: seq<string>)
    ensures r == [] <==> ok1 && ok2 && ok3
    ensures |r| <= 3
    ensures r != [] ==> r[0] == if !ok1 then m1 else if !ok2 then m2 else m3
  {
    Check(ok1, m1) + Check(ok2, m2) + Check(ok3, m3)
  }

  // ---- categories -------------------------------------------------------

  /** `z.string().trim().min(1, ...).max(50, ...)`. */
  function NameIssues(name: string): (r: seq<string>)
    ensures r == [] <==> 1 <= JsLength(Trim(name)) <= 50
  {
    var t := Trim(name);
    Check(JsLength(t) >= 1, NameRequiredMessage) + Check(JsLength(t) <= 50, NameTooLongMessage)
  }

  /** `createCategorySchema` (also the rename schema): the parsed name is the trimmed text. */
  function ParseCategoryName(name: string): (r: Result<string, seq<string>>)
    ensures r.Success? <==> 1 <= JsLength(Trim(name)) <= 50
    ensures r.Success? ==> r.value == Trim(name)
    ensures r.Failure? ==> |r.error| == 1
    ensures r.Failure? ==> r.error[0] == if Trim(name) == [] then NameRequiredMessage else NameTooLongMessage
  {
    var issues := NameIssues(name);
    if issues == [] then Success(Trim(name)) else Failure(issues)
  }

  // ---- expenses ---------------------------------------------------------

  /** The JSON body of a create or update, with each field already of its JSON type. */
  datatype ExpenseBody = ExpenseBody(
    amount: real,
    date: string,
    categoryId: string,
    merchant: Option<string>,
    description: Option<string>,
    paymentMethod: Option<string>)

  /** The parsed body: optional texts trimmed, the payment method read into the enumeration. */
  datatype ExpenseInput = ExpenseInput(
    amount: real,
    date: string,
    categoryId: string,
    merchant: Option<string>,
    description: Option<string>,
    paymentMethod: Option<PaymentMethod>)

  /** `z.string().trim().max(n).optional().nullable()`: absent and null pass, a text passes when its trimmed form is short enough. */
  predicate OptionalTextOk(t: Option<string>, max: nat) {
    t.None? || JsLength(Trim(t.value)) <= max
  }

  function TrimOption(t: Option<string>): Option<string> {
    if t.None? then None else Some(Trim(t.value))
  }

  predicate PaymentMethodOk(p: Option<string>) {
    p.None? || PaymentMethodOf(p.value).Some?
  }

  /** Every check of the body passes. */
  predicate ExpenseBodyOk(b: ExpenseBody) {
    && b.amount > 0.0 && IsDateText(b.date) && IsUuid(b.categoryId)
    && OptionalTextOk(b.merchant, 100) && OptionalTextOk(b.description, 500)
    && PaymentMethodOk(b.paymentMethod)
  }

  /**
   * The issues of six checks in order, as the validation library collects
   * them: one message per failing check.
   */
  function Issues6(ok1: bool, m1: string, ok2: bool, m2: string, ok3: bool, m3: string,
                   ok4: bool, m4: string, ok5: bool, m5: string, ok6: bool, m6: string): (r: seq<string>)
    ensures r == [] <==> ok1 && ok2 && ok3 && ok4 && ok5 && ok6
    ensures |r| <= 6
    ensures r != [] ==> r[0] == FirstFailing6(ok1, m1, ok2, m2, ok3, m3, ok4, m4, ok5, m5, m6)
  {
    var first := Issues3(ok1, m1, ok2, m2, ok3, m3);
    var second := Issues3(ok4, m4, ok5, m5, ok6, m6);
    if first != [] then
      assert (first + second)[0] == first[0];
      first + second
    else
      assert first + second == second;
      first + second
  }

  /** The message of the first of six checks that fails (the last when only it does). */
  function FirstFailing6(ok1: bool, m1: string, ok2: bool, m2: string, ok3: bool, m3: string,
                         ok4: bool, m4: string, ok5: bool, m5: string, m6: string): string {
    if !ok1 then m1 else if !ok2 then m2 else if !ok3 then m3
    else if !ok4 then m4 else if !ok5 then m5 else m6
  }

  function ReceivedText(p: Option<string>): string {
    if p.Some? then p.value else ""
  }

  /**
   * The message of the first check of the body that fails: amount, date,
   * category, merchant, description, payment method.
   */
  function FirstExpenseIssue(b: ExpenseBody): string {
    FirstFailing6(b.amount > 0.0, AmountMessage, IsDateText(b.date), DateMessage, IsUuid(b.categoryId), CategoryIdMessage,
      OptionalTextOk(b.merchant, 100), AtMost100Message, OptionalTextOk(b.description, 500), AtMost500Message,
      EnumMessage(ReceivedText(b.paymentMethod)))
  }

  /** The issues of a body: one message per failing check, the first that of the first failing field. */
  function ExpenseIssues(b: ExpenseBody): (r: seq<string>)
    ensures r == [] <==> ExpenseBodyOk(b)
    ensures |r| <= 6
    ensures r != [] ==> r[0] == FirstExpenseIssue(b)
  {
    Issues6(b.amount > 0.0, AmountMessage, IsDateText(b.date), DateMessage, IsUuid(b.categoryId), CategoryIdMessage,
      OptionalTextOk(b.merchant, 100), AtMost100Message, OptionalTextOk(b.description, 500), AtMost500Message,
      PaymentMethodOk(b.paymentMethod), EnumMessage(ReceivedText(b.paymentMethod)))
  }

  /** `createExpenseSchema` (also the update schema). */
  function ParseExpenseBody(b: ExpenseBody): (r: Result<ExpenseInput, seq<string>>)
    ensures r.Success? <==> ExpenseBodyOk(b)
    ensures r.Success? ==>
      && r.value.amount == b.amount && r.value.date == b.date && r.value.categoryId == b.categoryId
      && r.value.merchant == TrimOption(b.merchant) && r.value.description == TrimOption(b.description)
      && (r.value.paymentMethod.Some? <==> b.paymentMethod.Some?)
      && (b.paymentMethod.Some? ==> r.value.paymentMethod == PaymentMethodOf(b.paymentMethod.value))
    ensures r.Failure? ==> r.error == ExpenseIssues(b) && 0 < |r.error| <= 6
    ensures r.Failure? ==> r.error[0] == FirstExpenseIssue(b)
  {
    var issues := ExpenseIssues(b);
    if issues == [] then
      Success(ExpenseInput(b.amount, b.date, b.categoryId, TrimOption(b.merchant), TrimOption(b.description),
        if b.paymentMethod.None? then None else PaymentMethodOf(b.paymentMethod.value)))
    else Failure(issues)
  }

  /** `expenseIdSchema` / `categoryIdSchema`: the route parameter must be a UUID. */
  function ParseId(id: string, message: string): (r: Result<string, seq<string>>)
    ensures r.Success? <==> IsUuid(id)
    ensures r.Success? ==> r.value == id
    ensures r.Failure? ==> r.error == [message]
  {
    if IsUuid(id) then Success(id) else Failure([message])
  }

  /** The query string of the expense listing, each parameter a single text if present. */
  datatype ExpenseQueryText = ExpenseQueryText(
    page: Option<string>,
    month: Option<string>,
    categoryId: Option<string>,
    q: Option<string>)

  /** The parsed listing query; a `page` of `None` stands for `NaN`. */
  datatype ExpenseQuery = ExpenseQuery(
    page: Option<int>,
    month: Option<string>,
    categoryId: Option<string>,
    q: Option<string>)

  /** `page`: absent or empty becomes 1, anything else is `parseInt(page, 10)`. */
  function ParsePage(page: Option<string>): (r: Option<int>)
    ensures page.None? || page == Some("") ==> r == Some(1)
    ensures page.Some? && page.value != "" ==> r == ParseInt(page.value)
  {
    if page.None? || page.value == "" then Some(1) else ParseInt(page.value)
  }

  /** A page written in plain digits is its decimal value. */
  lemma ParsePageOfDigits(page: string)
    requires |page| > 0 && AllDigits(page)
    ensures ParsePage(Some(page)) == Some(DigitsValue(page))
  {
    ParseIntOfDigits(page);
  }

  /** `month` is absent or `YYYY-MM`. */
  predicate MonthParamOk(month: Option<string>) { month.None? || IsMonthText(month.value) }

  /** `categoryId` is absent or a UUID. */
  predicate CategoryParamOk(categoryId: Option<string>) { categoryId.None? || IsUuid(categoryId.value) }

  /** The issues of a listing query: one message per failing check, parameters in declaration order. */
  function QueryIssues(t: ExpenseQueryText): (r: seq<string>)
    ensures r == [] <==> MonthParamOk(t.month) && CategoryParamOk(t.categoryId) && OptionalTextOk(t.q, 100)
    ensures r != [] ==>
      r[0] == if !MonthParamOk(t.month) then MonthMessage
        else if !CategoryParamOk(t.categoryId) then UuidMessage
        else AtMost100Message
  {
    Issues3(MonthParamOk(t.month), MonthMessage, CategoryParamOk(t.categoryId), UuidMessage,
      OptionalTextOk(t.q, 100), AtMost100Message)
  }

  /**
   * `expenseQuerySchema`: a bad month is reported first, then a bad category,
   * then a search text longer than 100 characters.
   */
  function ParseExpenseQuery(t: ExpenseQueryText): (r: Result<ExpenseQuery, seq<string>>)
    ensures r.Success? <==> MonthParamOk(t.month) && CategoryParamOk(t.categoryId) && OptionalTextOk(t.q, 100)
    ensures r.Success? ==>
      r.value == ExpenseQuery(ParsePage(t.page), t.month, t.categoryId, TrimOption(t.q))
    ensures r.Failure? ==> r.error == QueryIssues(t) && |r.error| > 0
  {
    var issues := QueryIssues(t);
    if issues == [] then Success(ExpenseQuery(ParsePage(t.page), t.month, t.categoryId, TrimOption(t.q)))
    else Failure(issues)
  }

  /** `metricsQuerySchema`: the month is required. */
  function ParseMetricsMonth(month: Option<string>): (r: Result<string, seq<string>>)
    ensures r.Success? <==> month.Some? && IsMonthText(month.value)
    ensures r.Success? ==> r.value == month.value
    ensures r.Failure? ==> r.error == [if month.None? then RequiredMessage else MonthMessage]
  {
    if month.None? then Failure([RequiredMessage])
    else if IsMonthText(month.value) then Success(month.value)
    else Failure([MonthMessage])
  }

  // ---- login ------------------------------------------------------------

  datatype LoginBody = LoginBody(email: string, password: string)

  /**
   * `loginSchema`. Whether the library accepts the e-mail address is a regular
   * expression of the library, passed in as `emailAccepted`.
   */
  function ParseLogin(b: LoginBody, emailAccepted: bool): (r: Result<LoginBody, seq<string>>)
    ensures r.Success? <==> emailAccepted && JsLength(b.password) >= 1
    ensures r.Success? ==> r.value == b
    ensures r.Failure? ==> |r.error| > 0 && r.error[0] == if emailAccepted then PasswordMessage else EmailMessage
  {
    var issues := Check(emailAccepted, EmailMessage) + Check(JsLength(b.password) >= 1, PasswordMessage);
    if issues == [] then Success(b) else Failure(issues)
  }

  lemma PasswordRequired(b: LoginBody, emailAccepted: bool)
    ensures ParseLogin(b, emailAccepted).Success? ==> b.password != []
  {
  }
}
