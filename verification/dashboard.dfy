/** The dashboard's client-side filtering of the expense list: a category
    pass (skipped for the choice "all") followed by a case-insensitive
    substring search on the description (skipped for an empty query). */
module Dashboard {
  import opened Wrappers
  import opened Text
  import opened ExpenseModel
  import opened ExpenseController

  /** The choices of the category drop-down. */
  const CategoryFilters: seq<string> :=
    ["all", "Food & Drinks", "Shopping", "Transportation", "Entertainment",
     "Bills & Utilities", "Healthcare", "Education", "Travel", "Personal", "Other"]

  /** The drop-down offers "all" followed by the ten stored category
      spellings in the schema's order. */
  lemma CategoryFiltersAreAllAndNames()
    ensures |CategoryFilters| == |CategoryEnum| + 1 && CategoryFilters[0] == "all"
    ensures forall i :: 0 <= i < |CategoryEnum| ==> CategoryFilters[i + 1] == Name(CategoryEnum[i])
  {
    var names := ["Food & Drinks", "Shopping", "Transportation", "Entertainment",
                  "Bills & Utilities", "Healthcare", "Education", "Travel", "Personal", "Other"];
    assert CategoryFilters == ["all"] + names;
    forall i | 0 <= i < |CategoryEnum| ensures names[i] == Name(CategoryEnum[i]) {
      SpelledInOrder(i);
    }
  }

  lemma SpelledInOrder(i: nat)
    requires i < 10
    ensures ["Food & Drinks", "Shopping", "Transportation", "Entertainment",
             "Bills & Utilities", "Healthcare", "Education", "Travel", "Personal", "Other"][i]
            == Name(CategoryEnum[i])
  {
  }

  /** `s` is an order-preserving selection of the elements of `xs`. */
  predicate SubsequenceOf(s: seq<Expense>, xs: seq<Expense>)
    decreases |xs|
  {
    if |s| == 0 then true
    else if |xs| == 0 then false
    else if s[0] == xs[0] then SubsequenceOf(s[1..], xs[1..])
    else SubsequenceOf(s, xs[1..])
  }

  /** Whether an expense survives the category pass. */
  predicate CategoryPass(e: Expense, categoryFilter: string)
  {
    categoryFilter == "all" || Name(e.category) == categoryFilter
  }

  /** Whether an expense survives the search pass. */
  predicate SearchPass(e: Expense, query: string)
  {
    query == "" || Contains(Lower(e.description), Lower(query))
  }

  /** The category pass: keeps, in order, the expenses stored under the
      chosen spelling. */
  function ByCategory(xs: seq<Expense>, categoryFilter: string): (r: seq<Expense>)
    ensures |r| <= |xs|
    ensures SubsequenceOf(r, xs)
    ensures forall e :: e in r <==> e in xs && Name(e.category) == categoryFilter
  {
    if |xs| == 0 then []
    else
      var rest := ByCategory(xs[1..], categoryFilter);
      assert xs == [xs[0]] + xs[1..];
      if Name(xs[0].category) == categoryFilter then
        assert ([xs[0]] + rest)[1..] == rest;
        [xs[0]] + rest
      else rest
  }

  /** The search pass: keeps, in order, the expenses whose lower-cased
      description contains the lower-cased query. */
  function BySearch(xs: seq<Expense>, query: string): (r: seq<Expense>)
    ensures |r| <= |xs|
    ensures SubsequenceOf(r, xs)
    ensures forall e :: e in r <==> e in xs && Contains(Lower(e.description), Lower(query))
  {
    if |xs| == 0 then []
    else
      var rest := BySearch(xs[1..], query);
      assert xs == [xs[0]] + xs[1..];
      if Contains(Lower(xs[0].description), Lower(query)) then
        assert ([xs[0]] + rest)[1..] == rest;
        [xs[0]] + rest
      else rest
  }

  /** `filterExpenses`: the category pass unless the choice is "all", then
      the search pass unless the query is empty. */
  function FilterExpenses(expenses: seq<Expense>, searchQuery: string, categoryFilter: string): (r: seq<Expense>)
    ensures |r| <= |expenses|
    ensures forall e :: e in r <==> e in expenses && CategoryPass(e, categoryFilter) && SearchPass(e, searchQuery)
    ensures forall e :: multiset(r)[e] == if CategoryPass(e, categoryFilter) && SearchPass(e, searchQuery) then multiset(expenses)[e] else 0
  {
    var filtered := if categoryFilter != "all" then ByCategory(expenses, categoryFilter) else expenses;
    PassesCount(expenses, filtered, searchQuery, categoryFilter);
    if searchQuery != "" then BySearch(filtered, searchQuery) else filtered
  }

  /** The two passes, one after the other, keep every copy of an expense
      passing both conditions and no copy of any other. */
  lemma PassesCount(expenses: seq<Expense>, filtered: seq<Expense>, searchQuery: string, categoryFilter: string)
    requires filtered == if categoryFilter != "all" then ByCategory(expenses, categoryFilter) else expenses
    ensures forall e :: multiset(if searchQuery != "" then BySearch(filtered, searchQuery) else filtered)[e]
              == if CategoryPass(e, categoryFilter) && SearchPass(e, searchQuery) then multiset(expenses)[e] else 0
  {
    forall e | true
      ensures multiset(if searchQuery != "" then BySearch(filtered, searchQuery) else filtered)[e]
              == if CategoryPass(e, categoryFilter) && SearchPass(e, searchQuery) then multiset(expenses)[e] else 0
    {
      if categoryFilter != "all" {
        ByCategoryCounts(expenses, categoryFilter, e);
      }
      if searchQuery != "" {
        BySearchCounts(filtered, searchQuery, e);
      }
    }
  }

  /** A single pass that keeps the expenses meeting both conditions: the
      reference the two-pass filter is compared with. */
  function KeepPassing(xs: seq<Expense>, searchQuery: string, categoryFilter: string): (r: seq<Expense>)
    ensures |r| <= |xs|
    ensures SubsequenceOf(r, xs)
    ensures forall e :: e in r <==> e in xs && CategoryPass(e, categoryFilter) && SearchPass(e, searchQuery)
  {
    if |xs| == 0 then []
    else
      var rest := KeepPassing(xs[1..], searchQuery, categoryFilter);
      assert xs == [xs[0]] + xs[1..];
      if CategoryPass(xs[0], categoryFilter) && SearchPass(xs[0], searchQuery) then
        assert ([xs[0]] + rest)[1..] == rest;
        [xs[0]] + rest
      else rest
  }

  /** Number of copies of `e` in `xs`. */
  function Count(xs: seq<Expense>, e: Expense): nat
  {
    if |xs| == 0 then 0 else (if xs[0] == e then 1 else 0) + Count(xs[1..], e)
  }

  /** `Count` is the multiplicity of the sequence's multiset. */
  lemma {:induction false} CountIsMultiplicity(xs: seq<Expense>, e: Expense)
    ensures Count(xs, e) == multiset(xs)[e]
  {
    if |xs| > 0 {
      CountIsMultiplicity(xs[1..], e);
      assert xs == [xs[0]] + xs[1..];
      assert multiset(xs) == multiset([xs[0]]) + multiset(xs[1..]);
    }
  }

  /** One step of a filter's count: `r` is `rest` with `x` put in front
      when `x` is kept, and `rest` counts `e` as the filter says. */
  lemma CountStep(x: Expense, xs: seq<Expense>, rest: seq<Expense>, r: seq<Expense>, e: Expense, keep: bool, pass: bool)
    requires |xs| > 0 && xs[0] == x
    requires r == if keep then [x] + rest else rest
    requires Count(rest, e) == if pass then Count(xs[1..], e) else 0
    requires x == e ==> keep == pass
    ensures Count(r, e) == if pass then Count(xs, e) else 0
  {
    if keep {
      assert r[0] == x && r[1..] == rest;
    }
  }

  lemma {:induction false} ByCategoryCount(xs: seq<Expense>, categoryFilter: string, e: Expense)
    ensures Count(ByCategory(xs, categoryFilter), e) == if Name(e.category) == categoryFilter then Count(xs, e) else 0
  {
    if |xs| > 0 {
      ByCategoryCount(xs[1..], categoryFilter, e);
      CountStep(xs[0], xs, ByCategory(xs[1..], categoryFilter), ByCategory(xs, categoryFilter),
                e, Name(xs[0].category) == categoryFilter, Name(e.category) == categoryFilter);
    }
  }

  lemma {:induction false} BySearchCount(xs: seq<Expense>, query: string, e: Expense)
    ensures Count(BySearch(xs, query), e) == if Contains(Lower(e.description), Lower(query)) then Count(xs, e) else 0
  {
    if |xs| > 0 {
      BySearchCount(xs[1..], query, e);
      CountStep(xs[0], xs, BySearch(xs[1..], query), BySearch(xs, query),
                e, Contains(Lower(xs[0].description), Lower(query)), Contains(Lower(e.description), Lower(query)));
    }
  }

  lemma {:induction false} KeepPassingCount(xs: seq<Expense>, searchQuery: string, categoryFilter: string, e: Expense)
    ensures Count(KeepPassing(xs, searchQuery, categoryFilter), e)
            == if CategoryPass(e, categoryFilter) && SearchPass(e, searchQuery) then Count(xs, e) else 0
  {
    if |xs| > 0 {
      KeepPassingCount(xs[1..], searchQuery, categoryFilter, e);
      CountStep(xs[0], xs, KeepPassing(xs[1..], searchQuery, categoryFilter), KeepPassing(xs, searchQuery, categoryFilter),
                e, CategoryPass(xs[0], categoryFilter) && SearchPass(xs[0], searchQuery),
                CategoryPass(e, categoryFilter) && SearchPass(e, searchQuery));
    }
  }

  /** The category pass keeps every copy of a matching expense and no copy
      of any other. */
  lemma ByCategoryCounts(xs: seq<Expense>, categoryFilter: string, e: Expense)
    ensures multiset(ByCategory(xs, categoryFilter))[e]
            == if Name(e.category) == categoryFilter then multiset(xs)[e] else 0
  {
    ByCategoryCount(xs, categoryFilter, e);
    CountIsMultiplicity(xs, e);
    CountIsMultiplicity(ByCategory(xs, categoryFilter), e);
  }

  /** The search pass keeps every copy of a matching expense and no copy of
      any other. */
  lemma BySearchCounts(xs: seq<Expense>, query: string, e: Expense)
    ensures multiset(BySearch(xs, query))[e]
            == if Contains(Lower(e.description), Lower(query)) then multiset(xs)[e] else 0
  {
    BySearchCount(xs, query, e);
    CountIsMultiplicity(xs, e);
    CountIsMultiplicity(BySearch(xs, query), e);
  }

  /** The one-pass reference keeps every copy of an expense meeting both
      conditions and no copy of any other. */
  lemma KeepPassingCounts(xs: seq<Expense>, searchQuery: string, categoryFilter: string, e: Expense)
    ensures multiset(KeepPassing(xs, searchQuery, categoryFilter))[e]
            == if CategoryPass(e, categoryFilter) && SearchPass(e, searchQuery) then multiset(xs)[e] else 0
  {
    KeepPassingCount(xs, searchQuery, categoryFilter, e);
    CountIsMultiplicity(xs, e);
    CountIsMultiplicity(KeepPassing(xs, searchQuery, categoryFilter), e);
  }

  lemma {:induction false} SearchAfterCategory(xs: seq<Expense>, searchQuery: string, categoryFilter: string)
    requires searchQuery != "" && categoryFilter != "all"
    ensures BySearch(ByCategory(xs, categoryFilter), searchQuery) == KeepPassing(xs, searchQuery, categoryFilter)
  {
    if |xs| > 0 {
      SearchAfterCategory(xs[1..], searchQuery, categoryFilter);
    }
  }

  lemma {:induction false} SearchOnly(xs: seq<Expense>, searchQuery: string)
    requires searchQuery != ""
    ensures BySearch(xs, searchQuery) == KeepPassing(xs, searchQuery, "all")
  {
    if |xs| > 0 {
      SearchOnly(xs[1..], searchQuery);
    }
  }

  lemma {:induction false} CategoryOnly(xs: seq<Expense>, categoryFilter: string)
    requires categoryFilter != "all"
    ensures ByCategory(xs, categoryFilter) == KeepPassing(xs, "", categoryFilter)
  {
    if |xs| > 0 {
      CategoryOnly(xs[1..], categoryFilter);
    }
  }

  lemma {:induction false} KeepAll(xs: seq<Expense>)
    ensures KeepPassing(xs, "", "all") == xs
  {
    if |xs| > 0 {
      KeepAll(xs[1..]);
      assert xs == [xs[0]] + xs[1..];
    }
  }

  /** The two passes select exactly what one pass with both conditions
      selects, in the same order. */
  lemma TwoPassesAreOnePass(expenses: seq<Expense>, searchQuery: string, categoryFilter: string)
    ensures FilterExpenses(expenses, searchQuery, categoryFilter) == KeepPassing(expenses, searchQuery, categoryFilter)
  {
    if searchQuery != "" && categoryFilter != "all" {
      SearchAfterCategory(expenses, searchQuery, categoryFilter);
    } else if searchQuery != "" {
      SearchOnly(expenses, searchQuery);
    } else if categoryFilter != "all" {
      CategoryOnly(expenses, categoryFilter);
    } else {
      KeepAll(expenses);
    }
  }

  /** What the dashboard shows: an order-preserving selection of the
      expenses, holding every copy of each one that passes both conditions
      and nothing else. */
  lemma FilteredAreThePassing(expenses: seq<Expense>, searchQuery: string, categoryFilter: string)
    ensures SubsequenceOf(FilterExpenses(expenses, searchQuery, categoryFilter), expenses)
    ensures forall e :: e in FilterExpenses(expenses, searchQuery, categoryFilter) <==>
              e in expenses && CategoryPass(e, categoryFilter) && SearchPass(e, searchQuery)
    ensures forall e :: multiset(FilterExpenses(expenses, searchQuery, categoryFilter))[e]
              == if CategoryPass(e, categoryFilter) && SearchPass(e, searchQuery) then multiset(expenses)[e] else 0
  {
    TwoPassesAreOnePass(expenses, searchQuery, categoryFilter);
    forall e | true
      ensures multiset(FilterExpenses(expenses, searchQuery, categoryFilter))[e]
              == if CategoryPass(e, categoryFilter) && SearchPass(e, searchQuery) then multiset(expenses)[e] else 0
    {
      KeepPassingCounts(expenses, searchQuery, categoryFilter, e);
    }
  }

  /** For every non-empty choice, the client's category pass keeps exactly
      the expenses that the server's list query admits for that choice. */
  lemma CategoryPassAgreesWithServer(e: Expense, categoryFilter: string)
    requires categoryFilter != ""
    ensures CategoryPass(e, categoryFilter) <==> MeetsConstraint(e, CategoryConstraint(Some(categoryFilter)))
  {
  }

  /** The empty choice is where they part: the server reads it as no
      constraint, the client keeps nothing. */
  lemma EmptyChoiceDisagrees(e: Expense)
    ensures MeetsConstraint(e, CategoryConstraint(Some("")))
    ensures !CategoryPass(e, "")
  {
  }
}
