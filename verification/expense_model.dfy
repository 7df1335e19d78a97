/** The stored expense record and the field rules of its database schema:
    the description is required and stored trimmed, the amount is required
    and at least 0, the category is one of ten names and defaults to
    "Other", the date defaults to the current instant. */
module ExpenseModel {
  import opened Wrappers
  import opened Text
  import opened Calendar

  /** The closed category enumeration, in the schema's declaration order. */
  datatype Category =
    | FoodAndDrinks
    | Shopping
    | Transportation
    | Entertainment
    | BillsAndUtilities
    | Healthcare
    | Education
    | Travel
    | Personal
    | Other

  /** The stored spelling of each category. */
  function Name(c: Category): string
  {
    match c
    case FoodAndDrinks => "Food & Drinks"
    case Shopping => "Shopping"
    case Transportation => "Transportation"
    case Entertainment => "Entertainment"
    case BillsAndUtilities => "Bills & Utilities"
    case Healthcare => "Healthcare"
    case Education => "Education"
    case Travel => "Travel"
    case Personal => "Personal"
    case Other => "Other"
  }

  /** The schema's `enum` list. */
  const CategoryEnum: seq<Category> :=
    [FoodAndDrinks, Shopping, Transportation, Entertainment, BillsAndUtilities,
     Healthcare, Education, Travel, Personal, Other]

  /** The first category of `cs` spelled `s`, if any. */
  function FindByName(s: string, cs: seq<Category>): (r: Option<Category>)
    ensures r.Some? ==> Name(r.value) == s && r.value in cs
    ensures r.None? ==> forall i :: 0 <= i < |cs| ==> Name(cs[i]) != s
  {
    if |cs| == 0 then None
    else if Name(cs[0]) == s then Some(cs[0])
    else FindByName(s, cs[1..])
  }

  /** The enum validator: a stored string names a category exactly when it
      is one of the ten spellings. */
  function CategoryFromName(s: string): (r: Option<Category>)
    ensures r.Some? ==> Name(r.value) == s
    ensures r.None? ==> forall c: Category :: Name(c) != s
  {
    var r := FindByName(s, CategoryEnum);
    assert r.None? ==> forall c: Category :: Name(c) != s by {
      if r.None? {
        forall c: Category ensures Name(c) != s {
          CategoryEnumComplete(c);
          var i :| 0 <= i < |CategoryEnum| && CategoryEnum[i] == c;
        }
      }
    }
    r
  }

  /** The enum holds every category exactly once. */
  lemma CategoryEnumComplete(c: Category)
    ensures c in CategoryEnum
    ensures |CategoryEnum| == 10
    ensures forall i, j :: 0 <= i < j < |CategoryEnum| ==> CategoryEnum[i] != CategoryEnum[j]
  {
  }

  /** Reading back the spelling of a category yields that category. */
  lemma NameRoundTrip(c: Category)
    ensures CategoryFromName(Name(c)) == Some(c)
  {
  }

  /** Distinct categories have distinct spellings. */
  lemma NameInjective(a: Category, b: Category)
    requires Name(a) == Name(b)
    ensures a == b
  {
    NameRoundTrip(a);
    NameRoundTrip(b);
  }

  /** A stored expense. `userId` is the owner's identifier as the
      authentication layer supplies it. */
  datatype Expense = Expense(
    userId: string,
    description: string,
    amount: real,
    category: Category,
    date: Instant)

  /** What the schema accepts once defaults and setters have been applied. */
  predicate ValidExpense(e: Expense)
  {
    && e.description != ""
    && IsTrimmed(e.description)
    && e.amount >= 0.0
    && ValidInstant(e.date)
  }

  /** The fields handed to the model constructor; `None` is an omitted
      (undefined) field. */
  datatype ExpenseFields = ExpenseFields(
    userId: string,
    description: Option<string>,
    amount: Option<real>,
    category: Option<string>,
    date: Option<Instant>)

  datatype SchemaError =
    | DescriptionRequired
    | AmountRequired
    | AmountNegative
    | CategoryNotInEnum
    | InvalidDate

  /** Schema validation on save: the description is trimmed by its setter
      and then must be non-empty, the amount must be present and at least 0,
      the category must be in the enum (omitted means "Other"), and the date
      must be a valid instant (omitted means `now`). */
  function ValidateExpense(f: ExpenseFields, now: Instant): (r: Result<Expense, SchemaError>)
    requires ValidInstant(now)
    ensures r.Ok? <==>
              && f.description.Some? && Trim(f.description.value) != ""
              && f.amount.Some? && f.amount.value >= 0.0
              && (f.category.None? || CategoryFromName(f.category.value).Some?)
              && (f.date.None? || ValidInstant(f.date.value))
    ensures r.Ok? ==> ValidExpense(r.value)
    ensures r.Ok? ==> r.value.userId == f.userId
    ensures r.Ok? ==> r.value.description == Trim(f.description.value)
    ensures r.Ok? ==> Some(r.value.amount) == f.amount
    ensures r.Ok? ==> Name(r.value.category) == (if f.category.Some? then f.category.value else "Other")
    ensures r.Ok? ==> r.value.date == (if f.date.Some? then f.date.value else now)
  {
    if f.description.None? || Trim(f.description.value) == "" then Err(DescriptionRequired)
    else if f.amount.None? then Err(AmountRequired)
    else if f.amount.value < 0.0 then Err(AmountNegative)
    else
      var category := if f.category.Some? then CategoryFromName(f.category.value) else Some(Other);
      if category.None? then Err(CategoryNotInEnum)
      else
        var date := if f.date.Some? then f.date.value else now;
        if !ValidInstant(date) then Err(InvalidDate)
        else Ok(Expense(f.userId, Trim(f.description.value), f.amount.value, category.value, date))
  }

  /** The fields of a stored expense, as a save would hand them back. */
  function FieldsOf(e: Expense): ExpenseFields
  {
    ExpenseFields(e.userId, Some(e.description), Some(e.amount), Some(Name(e.category)), Some(e.date))
  }

  /** Re-validating a valid expense yields the same expense: validation is
      the identity on the records it admits. */
  lemma ValidateValid(e: Expense, now: Instant)
    requires ValidInstant(now)
    requires ValidExpense(e)
    ensures ValidateExpense(FieldsOf(e), now) == Ok(e)
  {
    FieldsOfValidAdmitted(e, now);
    AdmittedFieldsOf(FieldsOf(e), now, e);
  }

  lemma FieldsOfValidAdmitted(e: Expense, now: Instant)
    requires ValidInstant(now)
    requires ValidExpense(e)
    ensures ValidateExpense(FieldsOf(e), now).Ok?
  {
    ValidFieldsAdmitted(e.userId, e.description, e.amount, e.category, e.date, now);
  }

  /** A trimmed non-empty description, a non-negative amount, the spelling
      of a category and a valid date pass validation. */
  lemma ValidFieldsAdmitted(u: string, d: string, a: real, c: Category, t: Instant, now: Instant)
    requires ValidInstant(now) && ValidInstant(t)
    requires a >= 0.0 && d != "" && IsTrimmed(d)
    ensures ValidateExpense(ExpenseFields(u, Some(d), Some(a), Some(Name(c)), Some(t)), now).Ok?
  {
    TrimTrimmed(d);
    NameRoundTrip(c);
  }

  /** When the fields of `e` pass validation, the stored record is `e`. */
  lemma AdmittedFieldsOf(f: ExpenseFields, now: Instant, e: Expense)
    requires ValidInstant(now) && ValidExpense(e)
    requires ValidateExpense(f, now).Ok?
    requires f.userId == e.userId && f.description == Some(e.description) && f.amount == Some(e.amount)
    requires f.category == Some(Name(e.category)) && f.date == Some(e.date)
    ensures ValidateExpense(f, now) == Ok(e)
  {
    TrimTrimmed(e.description);
    NameInjective(ValidateExpense(f, now).value.category, e.category);
  }

  /** Every expense the schema admits re-validates to itself. */
  lemma ValidatedIsStable(f: ExpenseFields, now: Instant)
    requires ValidInstant(now)
    requires ValidateExpense(f, now).Ok?
    ensures ValidateExpense(FieldsOf(ValidateExpense(f, now).value), now) == ValidateExpense(f, now)
  {
    ValidateValid(ValidateExpense(f, now).value, now);
  }
}
