/** The decision logic of the expense endpoints, with the database reduced
    to values: a lookup result is an `Option<Expense>`, a query result is a
    sequence of expenses, and saving a record is schema validation. The
    current instant is the parameter `now`. */
module ExpenseController {
  import opened Wrappers
  import opened Text
  import opened Calendar
  import opened ExpenseModel
  import opened ExpenseParser
  import opened Grouping

  /** What an endpoint answers: 201 with the stored record, 200 with the
      updated record, or 400, 404 or 500 with a message. */
  datatype Response =
    | Created(expense: Expense)
    | Updated(expense: Expense)
    | BadRequest(message: string)
    | NotFound(message: string)
    | ServerError(message: string)

  /** JavaScript truthiness of an optional string: present and non-empty. */
  predicate Truthy(v: Option<string>)
  {
    v.Some? && v.value != ""
  }

  // ---------------------------------------------------------------------
  // Create
  // ---------------------------------------------------------------------

  /** The JSON body of a create request; `None` is an absent field. */
  datatype CreateBody = CreateBody(
    input: Option<string>,
    description: Option<string>,
    amount: Option<real>,
    category: Option<string>,
    date: Option<Instant>)

  /** Building and saving a record from the fields: the stored record, or
      the 500 answer when the schema rejects the fields. */
  function SaveNew(fields: ExpenseFields, now: Instant): (r: Response)
    requires ValidInstant(now)
    ensures r.Created? || r == ServerError("Server error while creating expense")
    ensures r.Created? <==> ValidateExpense(fields, now).Ok?
    ensures r.Created? ==> r.expense == ValidateExpense(fields, now).value
  {
    match ValidateExpense(fields, now)
    case Ok(e) => Created(e)
    case Err(_) => ServerError("Server error while creating expense")
  }

  /** The parse path: the parser's reading is saved for the user, or the
      request is refused when the text has no amount or no description. */
  function CreateFromText(userId: string, input: string, now: Instant): (r: Response)
    requires ValidInstant(now)
    ensures ParseExpenseInput(input, now).None? ==> r == BadRequest("Could not parse expense input")
    ensures ParseExpenseInput(input, now).Some? ==>
              var p := ParseExpenseInput(input, now).value;
              r == Created(Expense(userId, p.description, p.amount, p.category, p.date))
  {
    var parsed := ParseExpenseInput(input, now);
    if parsed.None? then BadRequest("Could not parse expense input")
    else
      var p := parsed.value;
      ParsedSatisfiesSchema(input, now, userId);
      SaveNew(ExpenseFields(userId, Some(p.description), Some(p.amount), Some(Name(p.category)), Some(p.date)), now)
  }

  /** The manual path: a description and an amount are required, the
      category defaults to "Other" and the date to `now`. */
  function CreateFromFields(userId: string, body: CreateBody, now: Instant): (r: Response)
    requires ValidInstant(now)
    ensures r.Created? || r == BadRequest("Description and amount are required") || r == ServerError("Server error while creating expense")
    ensures !Truthy(body.description) || body.amount.None? <==>
              r == BadRequest("Description and amount are required")
    ensures Truthy(body.description) && body.amount.Some? ==>
              (r.Created? <==>
                 && Trim(body.description.value) != ""
                 && body.amount.value >= 0.0
                 && (!Truthy(body.category) || CategoryFromName(body.category.value).Some?)
                 && (body.date.None? || ValidInstant(body.date.value)))
    ensures r.Created? ==>
              && r.expense.userId == userId
              && r.expense.description == Trim(body.description.value)
              && Some(r.expense.amount) == body.amount
              && Name(r.expense.category) == (if Truthy(body.category) then body.category.value else Name(Other))
              && r.expense.date == (if body.date.Some? then body.date.value else now)
  {
    if !Truthy(body.description) || body.amount.None? then
      BadRequest("Description and amount are required")
    else
      var category := if Truthy(body.category) then body.category.value else Name(Other);
      var date := if body.date.Some? then body.date.value else now;
      NameRoundTrip(Other);
      SaveNew(ExpenseFields(userId, body.description, body.amount, Some(category), Some(date)), now)
  }

  /** `createExpense`: a truthy `input` goes through the parser and the
      manual fields are then ignored; otherwise the manual fields are used. */
  function CreateExpense(userId: string, body: CreateBody, now: Instant): (r: Response)
    requires ValidInstant(now)
    ensures !r.Updated? && !r.NotFound?
    ensures Truthy(body.input) && ParseExpenseInput(body.input.value, now).None? ==>
              r == BadRequest("Could not parse expense input")
    ensures Truthy(body.input) && ParseExpenseInput(body.input.value, now).Some? ==>
              var p := ParseExpenseInput(body.input.value, now).value;
              r == Created(Expense(userId, p.description, p.amount, p.category, p.date))
    ensures !Truthy(body.input) ==>
              r.Created? || r == BadRequest("Description and amount are required") || r == ServerError("Server error while creating expense")
    ensures !Truthy(body.input) ==>
              (r == BadRequest("Description and amount are required") <==> !Truthy(body.description) || body.amount.None?)
    ensures !Truthy(body.input) && Truthy(body.description) && body.amount.Some? ==>
              (r.Created? <==>
                 && Trim(body.description.value) != ""
                 && body.amount.value >= 0.0
                 && (!Truthy(body.category) || CategoryFromName(body.category.value).Some?)
                 && (body.date.None? || ValidInstant(body.date.value)))
    ensures !Truthy(body.input) && r.Created? ==>
              && r.expense.userId == userId
              && r.expense.description == Trim(body.description.value)
              && Some(r.expense.amount) == body.amount
              && Name(r.expense.category) == (if Truthy(body.category) then body.category.value else Name(Other))
              && r.expense.date == (if body.date.Some? then body.date.value else now)
  {
    if Truthy(body.input) then CreateFromText(userId, body.input.value, now)
    else CreateFromFields(userId, body, now)
  }

  /** An amount of 0 is present, so the manual path accepts it. */
  lemma ZeroAmountIsAccepted(userId: string, description: string, now: Instant)
    requires ValidInstant(now) && Trim(description) != ""
    ensures CreateExpense(userId, CreateBody(None, Some(description), Some(0.0), None, None), now)
              == Created(Expense(userId, Trim(description), 0.0, Other, now))
  {
    var r := CreateFromFields(userId, CreateBody(None, Some(description), Some(0.0), None, None), now);
    assert r.Created?;
    NameInjective(r.expense.category, Other);
  }

  /** A description of blanks passes the request check but not the schema,
      whose setter trims it to nothing: the answer is a 500, not a 400. */
  lemma BlankDescriptionIsServerError(userId: string, description: string, amount: real, now: Instant)
    requires ValidInstant(now) && description != "" && AllSpaces(description)
    ensures CreateExpense(userId, CreateBody(None, Some(description), Some(amount), None, None), now)
              == ServerError("Server error while creating expense")
  {
    assert LeadingSpaces(description) == |description| by {
      BlankLeadingSpaces(description);
    }
  }

  // ---------------------------------------------------------------------
  // Update
  // ---------------------------------------------------------------------

  /** The JSON body of an update request. */
  datatype UpdateBody = UpdateBody(
    description: Option<string>,
    amount: Option<real>,
    category: Option<string>,
    date: Option<Instant>)

  /** The fields of `e` after the partial update: description, category and
      date are replaced only by truthy values, the amount by any present
      value. */
  function Merge(e: Expense, body: UpdateBody): (f: ExpenseFields)
    ensures f.userId == e.userId
    ensures f.description == if Truthy(body.description) then body.description else Some(e.description)
    ensures f.amount == if body.amount.Some? then body.amount else Some(e.amount)
    ensures f.category == if Truthy(body.category) then body.category else Some(Name(e.category))
    ensures f.date == if body.date.Some? then body.date else Some(e.date)
  {
    ExpenseFields(
      e.userId,
      Some(if Truthy(body.description) then body.description.value else e.description),
      Some(if body.amount.Some? then body.amount.value else e.amount),
      Some(if Truthy(body.category) then body.category.value else Name(e.category)),
      Some(if body.date.Some? then body.date.value else e.date))
  }

  /** `updateExpense`: 404 when the user has no such expense; otherwise the
      merged record is saved, or the schema rejects it with a 500. */
  function UpdateExpense(found: Option<Expense>, body: UpdateBody, now: Instant): (r: Response)
    requires ValidInstant(now)
    ensures found.None? <==> r == NotFound("Expense not found")
    ensures r.Updated? || r == NotFound("Expense not found") || r == ServerError("Server error while updating expense")
    ensures found.Some? && ValidExpense(found.value) ==>
              (r.Updated? <==>
                 && (!Truthy(body.description) || Trim(body.description.value) != "")
                 && (body.amount.None? || body.amount.value >= 0.0)
                 && (!Truthy(body.category) || CategoryFromName(body.category.value).Some?)
                 && (body.date.None? || ValidInstant(body.date.value)))
    ensures found.Some? && ValidExpense(found.value) && r.Updated? ==>
              var e := found.value;
              && r.expense.userId == e.userId
              && r.expense.description == (if Truthy(body.description) then Trim(body.description.value) else e.description)
              && r.expense.amount == (if body.amount.Some? then body.amount.value else e.amount)
              && Name(r.expense.category) == (if Truthy(body.category) then body.category.value else Name(e.category))
              && r.expense.date == (if body.date.Some? then body.date.value else e.date)
  {
    match found
    case None => NotFound("Expense not found")
    case Some(e) =>
      assert ValidExpense(e) ==> Trim(e.description) == e.description by {
        if ValidExpense(e) {
          TrimTrimmed(e.description);
        }
      }
      NameRoundTrip(e.category);
      match ValidateExpense(Merge(e, body), now)
      case Ok(e') => Updated(e')
      case Err(_) => ServerError("Server error while updating expense")
  }

  /** An update that supplies nothing leaves a stored expense as it is. */
  lemma EmptyUpdateKeepsExpense(e: Expense, now: Instant)
    requires ValidInstant(now) && ValidExpense(e)
    ensures UpdateExpense(Some(e), UpdateBody(None, None, None, None), now) == Updated(e)
  {
    var r := UpdateExpense(Some(e), UpdateBody(None, None, None, None), now);
    assert r.Updated?;
    NameInjective(r.expense.category, e.category);
  }

  /** A present amount of 0 overwrites the stored amount, while an empty
      description leaves the stored one. */
  lemma ZeroAmountOverwrites(e: Expense, now: Instant)
    requires ValidInstant(now) && ValidExpense(e)
    ensures UpdateExpense(Some(e), UpdateBody(Some(""), Some(0.0), None, None), now)
              == Updated(e.(amount := 0.0))
  {
    var r := UpdateExpense(Some(e), UpdateBody(Some(""), Some(0.0), None, None), now);
    assert r.Updated?;
    NameInjective(r.expense.category, e.category);
  }

  /** Applying the same update twice gives what applying it once gives. */
  lemma UpdateIdempotent(e: Expense, body: UpdateBody, now: Instant)
    requires ValidInstant(now) && ValidExpense(e)
    requires UpdateExpense(Some(e), body, now).Updated?
    ensures UpdateExpense(Some(UpdateExpense(Some(e), body, now).expense), body, now)
              == UpdateExpense(Some(e), body, now)
  {
    var e1 := UpdateExpense(Some(e), body, now).expense;
    var e2 := UpdateExpense(Some(e1), body, now);
    assert ValidExpense(e1);
    assert e2.Updated?;
    if Truthy(body.description) {
      TrimIdempotent(body.description.value);
    }
    NameInjective(e2.expense.category, e1.category);
  }

  // ---------------------------------------------------------------------
  // Listing
  // ---------------------------------------------------------------------

  /** The category constraint of the list query: a truthy category other
      than "all" restricts the listing, anything else does not. */
  function CategoryConstraint(category: Option<string>): (r: Option<string>)
    ensures r.Some? ==> r == category && r.value != "" && r.value != "all"
    ensures r.None? ==> !Truthy(category) || category.value == "all"
  {
    if Truthy(category) && category.value != "all" then category else None
  }

  /** Whether an expense satisfies the query's category constraint. */
  predicate MeetsConstraint(e: Expense, constraint: Option<string>)
  {
    constraint.None? || Name(e.category) == constraint.value
  }

  // ---------------------------------------------------------------------
  // Summary and analytics
  // ---------------------------------------------------------------------

  /** The user's expenses dated at or after `start`, in store order: the
      find by user and lower date bound. */
  function SelectSince(store: seq<Expense>, userId: string, start: Instant): (r: seq<Expense>)
    ensures |r| <= |store|
    ensures forall i :: 0 <= i < |r| ==> r[i].userId == userId && InstantLe(start, r[i].date)
    ensures forall i :: 0 <= i < |store| && store[i].userId == userId && InstantLe(start, store[i].date) ==> store[i] in r
  {
    if |store| == 0 then []
    else
      var rest := SelectSince(store[1..], userId, start);
      assert forall i :: 1 <= i < |store| ==> store[i] == store[1..][i - 1];
      if store[0].userId == userId && InstantLe(start, store[0].date) then [store[0]] + rest else rest
  }

  /** The selection keeps every copy of a matching expense and no copy of
      any other: it is the store with exactly the non-matching records
      taken out. */
  lemma {:induction false} SelectSinceCounts(store: seq<Expense>, userId: string, start: Instant, e: Expense)
    ensures multiset(SelectSince(store, userId, start))[e]
            == if e.userId == userId && InstantLe(start, e.date) then multiset(store)[e] else 0
    decreases |store|
  {
    if |store| > 0 {
      SelectSinceCounts(store[1..], userId, start, e);
      assert store == [store[0]] + store[1..];
    }
  }

  /** Sum of the amounts of `xs`. */
  function Amounts(xs: seq<Expense>): real
  {
    if |xs| == 0 then 0.0 else xs[0].amount + Amounts(xs[1..])
  }

  /** The running-sum fold over the amounts, started from `acc`: it adds
      `acc` to the sum of the amounts. */
  function TotalFrom(acc: real, xs: seq<Expense>): (r: real)
    ensures r == acc + Amounts(xs)
    decreases |xs|
  {
    if |xs| == 0 then acc else TotalFrom(acc + xs[0].amount, xs[1..])
  }

  /** Each expense as a (category, amount) entry. */
  function CategoryEntries(xs: seq<Expense>): (r: seq<(Category, real)>)
    ensures |r| == |xs|
    ensures forall i :: 0 <= i < |xs| ==> r[i] == (xs[i].category, xs[i].amount)
  {
    seq(|xs|, i requires 0 <= i < |xs| => (xs[i].category, xs[i].amount))
  }

  /** Each expense as a (calendar day, amount) entry. */
  function DayEntries(xs: seq<Expense>): (r: seq<(Date, real)>)
    ensures |r| == |xs|
    ensures forall i :: 0 <= i < |xs| ==> r[i] == (xs[i].date.date, xs[i].amount)
  {
    seq(|xs|, i requires 0 <= i < |xs| => (xs[i].date.date, xs[i].amount))
  }

  /** Keying amounts by category or by day keeps their sum. */
  lemma {:induction false} EntriesKeepAmounts(xs: seq<Expense>)
    ensures Sum(CategoryEntries(xs)) == Amounts(xs)
    ensures Sum(DayEntries(xs)) == Amounts(xs)
  {
    if |xs| > 0 {
      EntriesKeepAmounts(xs[1..]);
      assert CategoryEntries(xs)[1..] == CategoryEntries(xs[1..]);
      assert DayEntries(xs)[1..] == DayEntries(xs[1..]);
    }
  }

  /** Per-category totals: one entry per category that occurs, holding the
      sum of that category's amounts. */
  function CategoryTotals(xs: seq<Expense>): (r: seq<(Category, real)>)
    ensures DistinctKeys(r)
    ensures KeySet(r) == KeySet(CategoryEntries(xs))
    ensures forall j :: 0 <= j < |r| ==> r[j].1 == SumFor(CategoryEntries(xs), r[j].0)
    ensures Sum(r) == Amounts(xs)
  {
    EntriesKeepAmounts(xs);
    GroupSums(CategoryEntries(xs))
  }

  /** Per-day totals, keyed by calendar day in the same way. */
  function DailyTotals(xs: seq<Expense>): (r: seq<(Date, real)>)
    ensures DistinctKeys(r)
    ensures KeySet(r) == KeySet(DayEntries(xs))
    ensures forall j :: 0 <= j < |r| ==> r[j].1 == SumFor(DayEntries(xs), r[j].0)
    ensures Sum(r) == Amounts(xs)
  {
    EntriesKeepAmounts(xs);
    GroupSums(DayEntries(xs))
  }

  /** The response of `getExpenseSummary`. */
  datatype Summary = Summary(
    period: string,
    total: real,
    count: nat,
    categoryBreakdown: seq<(Category, real)>)

  /** `getExpenseSummary` over the user's stored expenses. */
  function ExpenseSummary(store: seq<Expense>, userId: string, period: string, now: Instant): (r: Summary)
    requires ValidInstant(now)
    ensures var xs := SelectSince(store, userId, SummaryWindowStart(period, now));
            && r.period == period
            && r.count == |xs|
            && r.total == Amounts(xs)
            && r.categoryBreakdown == CategoryTotals(xs)
            && Sum(r.categoryBreakdown) == r.total
  {
    var xs := SelectSince(store, userId, SummaryWindowStart(period, now));
    Summary(period, TotalFrom(0.0, xs), |xs|, CategoryTotals(xs))
  }

  /** The response of `getAnalytics`. */
  datatype Analytics = Analytics(
    categoryData: seq<(Category, real)>,
    trendData: seq<(Date, real)>,
    totalExpenses: real)

  /** `getAnalytics` over the user's stored expenses dated from thirty days
      ago on, with no upper bound: totals per category, per calendar day,
      and overall, where the two breakdowns each add up to the overall
      total. */
  function GetAnalytics(store: seq<Expense>, userId: string, now: Instant): (r: Analytics)
    requires ValidInstant(now)
    ensures var xs := SelectSince(store, userId, AnalyticsWindowStart(now));
            && r.totalExpenses == Amounts(xs)
            && r.categoryData == CategoryTotals(xs)
            && r.trendData == DailyTotals(xs)
            && Sum(r.categoryData) == r.totalExpenses
            && Sum(r.trendData) == r.totalExpenses
  {
    var xs := SelectSince(store, userId, AnalyticsWindowStart(now));
    Analytics(CategoryTotals(xs), DailyTotals(xs), TotalFrom(0.0, xs))
  }
}
