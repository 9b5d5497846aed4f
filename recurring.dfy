/**
 * Recurring expenses (`budget_recurring_expense`) and the monthly run that
 * turns them into rows of `budget_expense`
 * (`generate_recurring_expenses_for_month` in database.py).
 *
 * A rule applies to a month when it is active, the month is not before its
 * start month, and, for a rule limited to a number of months, fewer than
 * that many months have passed. It is skipped when an expense with the same
 * year, month, day, category and subcategory exists; the subcategory is
 * compared with SQL `=`, so a NULL subcategory never matches anything and
 * such a rule is generated again on every run.
 */
module Recurring {
  import opened Wrappers

  /** A row of `budget_expense` (its id and timestamps left out). */
  datatype Expense = Expense(
    year: int, month: int, day: int, category: string, subcategory: Option<string>,
    amount: real, comment: Option<string>)

  /** `duration_type`, which the table's CHECK constraint limits to two values. */
  datatype DurationType = Indefinite | ForMonths

  /** A row of `budget_recurring_expense`; `active` stands for `active = 1`. */
  datatype RecurringRule = RecurringRule(
    category: string, subcategory: Option<string>, amount: real, comment: Option<string>,
    dayOfMonth: int, startYear: int, startMonth: int,
    durationType: DurationType, durationMonths: Option<int>, active: bool)

  /** `(year, month) >= (start_year, start_month)` as Python compares tuples. */
  predicate Started(r: RecurringRule, year: int, month: int) {
    year > r.startYear || (year == r.startYear && month >= r.startMonth)
  }

  function MonthsPassed(r: RecurringRule, year: int, month: int): int {
    (year - r.startYear) * 12 + (month - r.startMonth)
  }

  /** The duration limit applies only to a 'months' rule whose count is not NULL. */
  predicate WithinDuration(r: RecurringRule, year: int, month: int) {
    !(r.durationType == ForMonths && r.durationMonths.Some? && MonthsPassed(r, year, month) >= r.durationMonths.value)
  }

  predicate Eligible(r: RecurringRule, year: int, month: int) {
    r.active && Started(r, year, month) && WithinDuration(r, year, month)
  }

  /** The duplicate query's WHERE clause; `subcategory = NULL` is never true. */
  predicate SameSlot(e: Expense, r: RecurringRule, year: int, month: int) {
    && e.year == year && e.month == month && e.day == r.dayOfMonth && e.category == r.category
    && r.subcategory.Some? && e.subcategory == r.subcategory
  }

  /** `COUNT(*) > 0` of the duplicate query. */
  predicate AlreadyThere(table: seq<Expense>, r: RecurringRule, year: int, month: int) {
    exists i :: 0 <= i < |table| && SameSlot(table[i], r, year, month)
  }

  /** The expense `add_budget_expense` stores for a rule. */
  function Instance(r: RecurringRule, year: int, month: int): (e: Expense)
    ensures e.year == year && e.month == month && e.day == r.dayOfMonth
    ensures e.category == r.category && e.subcategory == r.subcategory
    ensures e.amount == r.amount && e.comment == r.comment
    ensures r.subcategory.Some? <==> SameSlot(e, r, year, month)
  {
    Expense(year, month, r.dayOfMonth, r.category, r.subcategory, r.amount, r.comment)
  }

  /** The expenses one run appends, in order, when it sees `rules` against
      the current `table` (each insert is visible to the later duplicate
      queries). */
  function Generated(rules: seq<RecurringRule>, year: int, month: int, table: seq<Expense>): (g: seq<Expense>)
    ensures |g| <= |rules|
    ensures forall k :: 0 <= k < |g| ==> g[k].year == year && g[k].month == month
    decreases |rules|
  {
    if rules == [] then []
    else
      var r := rules[0];
      if Eligible(r, year, month) && !AlreadyThere(table, r, year, month) then
        [Instance(r, year, month)] + Generated(rules[1..], year, month, table + [Instance(r, year, month)])
      else
        Generated(rules[1..], year, month, table)
  }

  /** `e` is what some eligible rule of `rules` stores. */
  ghost predicate FromEligibleRule(e: Expense, rules: seq<RecurringRule>, year: int, month: int) {
    exists j :: 0 <= j < |rules| && Eligible(rules[j], year, month) && e == Instance(rules[j], year, month)
  }

  /** Every generated expense is the instance of an eligible rule. */
  lemma {:induction false} GeneratedFromEligibleRules(rules: seq<RecurringRule>, year: int, month: int, table: seq<Expense>)
    ensures forall k :: 0 <= k < |Generated(rules, year, month, table)| ==>
              FromEligibleRule(Generated(rules, year, month, table)[k], rules, year, month)
    decreases |rules|
  {
    if rules != [] {
      var r := rules[0];
      var g := Generated(rules, year, month, table);
      var t' := if Eligible(r, year, month) && !AlreadyThere(table, r, year, month) then table + [Instance(r, year, month)] else table;
      var g' := Generated(rules[1..], year, month, t');
      GeneratedFromEligibleRules(rules[1..], year, month, t');
      forall k | 0 <= k < |g|
        ensures FromEligibleRule(g[k], rules, year, month)
      {
        if t' != table && k == 0 {
          assert Eligible(rules[0], year, month) && g[0] == Instance(rules[0], year, month);
        } else {
          var k' := if t' == table then k else k - 1;
          assert g[k] == g'[k'];
          var j :| 0 <= j < |rules[1..]| && Eligible(rules[1..][j], year, month) && g'[k'] == Instance(rules[1..][j], year, month);
          assert rules[j + 1] == rules[1..][j];
        }
      }
    }
  }

  lemma AlreadyThereGrows(table: seq<Expense>, more: seq<Expense>, r: RecurringRule, year: int, month: int)
    requires AlreadyThere(table, r, year, month)
    ensures AlreadyThere(table + more, r, year, month)
  {
    var i :| 0 <= i < |table| && SameSlot(table[i], r, year, month);
    assert (table + more)[i] == table[i];
  }

  /** After a run, every eligible rule with a subcategory has its expense in
      the table. */
  lemma {:induction false} GeneratedCoversRules(rules: seq<RecurringRule>, year: int, month: int, table: seq<Expense>)
    ensures forall j :: 0 <= j < |rules| && Eligible(rules[j], year, month) && rules[j].subcategory.Some? ==>
              AlreadyThere(table + Generated(rules, year, month, table), rules[j], year, month)
    decreases |rules|
  {
    if rules != [] {
      var r := rules[0];
      var g := Generated(rules, year, month, table);
      var t' := if Eligible(r, year, month) && !AlreadyThere(table, r, year, month) then table + [Instance(r, year, month)] else table;
      assert table + g == t' + Generated(rules[1..], year, month, t');
      GeneratedCoversRules(rules[1..], year, month, t');
      forall j | 0 <= j < |rules| && Eligible(rules[j], year, month) && rules[j].subcategory.Some?
        ensures AlreadyThere(table + g, rules[j], year, month)
      {
        if j == 0 {
          if t' == table {
            AlreadyThereGrows(table, g, r, year, month);
          } else {
            assert SameSlot((table + g)[|table|], r, year, month);
          }
        } else {
          assert rules[1..][j - 1] == rules[j];
        }
      }
    }
  }

  /** The instances of the eligible rules without a subcategory, in order. */
  function NullSubcategoryInstances(rules: seq<RecurringRule>, year: int, month: int): (g: seq<Expense>)
    ensures |g| <= |rules|
    ensures forall k :: 0 <= k < |g| ==> g[k].subcategory.None?
  {
    if rules == [] then []
    else if Eligible(rules[0], year, month) && rules[0].subcategory.None? then
      [Instance(rules[0], year, month)] + NullSubcategoryInstances(rules[1..], year, month)
    else NullSubcategoryInstances(rules[1..], year, month)
  }

  /** Against a table that already holds every eligible rule with a
      subcategory, a run generates exactly the rules with a NULL one. */
  lemma {:induction false} GeneratedWhenCovered(rules: seq<RecurringRule>, year: int, month: int, table: seq<Expense>)
    requires forall j :: 0 <= j < |rules| && Eligible(rules[j], year, month) && rules[j].subcategory.Some? ==>
               AlreadyThere(table, rules[j], year, month)
    ensures Generated(rules, year, month, table) == NullSubcategoryInstances(rules, year, month)
    decreases |rules|
  {
    if rules != [] {
      var r := rules[0];
      assert forall j :: 1 <= j < |rules| ==> rules[1..][j - 1] == rules[j];
      if Eligible(r, year, month) && r.subcategory.None? {
        var t' := table + [Instance(r, year, month)];
        forall j | 0 <= j < |rules[1..]| && Eligible(rules[1..][j], year, month) && rules[1..][j].subcategory.Some?
          ensures AlreadyThere(t', rules[1..][j], year, month)
        {
          assert rules[1..][j] == rules[j + 1];
          AlreadyThereGrows(table, [Instance(r, year, month)], rules[j + 1], year, month);
        }
        GeneratedWhenCovered(rules[1..], year, month, t');
      } else {
        assert Eligible(r, year, month) ==> AlreadyThere(table, r, year, month);
        forall j | 0 <= j < |rules[1..]| && Eligible(rules[1..][j], year, month) && rules[1..][j].subcategory.Some?
          ensures AlreadyThere(table, rules[1..][j], year, month)
        {
          assert rules[1..][j] == rules[j + 1];
        }
        GeneratedWhenCovered(rules[1..], year, month, table);
      }
    }
  }

  /** Running the same month twice: the second run adds exactly the eligible
      rules whose subcategory is NULL (SQL `= NULL` never finds them). */
  lemma SecondRunRegeneratesOnlyNullSubcategories(rules: seq<RecurringRule>, year: int, month: int, table: seq<Expense>)
    ensures var first := table + Generated(rules, year, month, table);
            Generated(rules, year, month, first) == NullSubcategoryInstances(rules, year, month)
  {
    GeneratedCoversRules(rules, year, month, table);
    GeneratedWhenCovered(rules, year, month, table + Generated(rules, year, month, table));
  }

  lemma {:induction false} NoNullSubcategoryInstances(rules: seq<RecurringRule>, year: int, month: int)
    requires forall j :: 0 <= j < |rules| ==> rules[j].subcategory.Some?
    ensures NullSubcategoryInstances(rules, year, month) == []
    decreases |rules|
  {
    if rules != [] {
      assert forall j :: 0 <= j < |rules[1..]| ==> rules[1..][j] == rules[j + 1];
      NoNullSubcategoryInstances(rules[1..], year, month);
    }
  }

  /** When every rule has a subcategory, a second run for the same month
      generates nothing. */
  lemma SecondRunIsIdempotent(rules: seq<RecurringRule>, year: int, month: int, table: seq<Expense>)
    requires forall j :: 0 <= j < |rules| ==> rules[j].subcategory.Some?
    ensures Generated(rules, year, month, table + Generated(rules, year, month, table)) == []
  {
    SecondRunRegeneratesOnlyNullSubcategories(rules, year, month, table);
    NoNullSubcategoryInstances(rules, year, month);
  }

  /** With months in 1..12, the tuple comparison is the month index test
      `months_passed >= 0`, so an active rule applies exactly in months
      0 .. duration_months-1 of its run when it is limited, and from its
      start on otherwise. */
  lemma EligibleWindow(r: RecurringRule, year: int, month: int)
    requires 1 <= month <= 12 && 1 <= r.startMonth <= 12
    ensures Started(r, year, month) <==> MonthsPassed(r, year, month) >= 0
    ensures Eligible(r, year, month) <==>
              r.active && 0 <= MonthsPassed(r, year, month)
              && (r.durationType == ForMonths && r.durationMonths.Some? ==> MonthsPassed(r, year, month) < r.durationMonths.value)
  {
    if year > r.startYear {
      assert (year - r.startYear) * 12 >= 12;
    } else if year < r.startYear {
      assert (year - r.startYear) * 12 <= -12;
    }
  }

  /** The budget tables the recurring run reads and writes. */
  class BudgetTables {
    /** `budget_expense` in insertion order. */
    var expenses: seq<Expense>
    /** `budget_recurring_expense` in the order `get_recurring_expenses` returns it. */
    var recurring: seq<RecurringRule>

    constructor ()
      ensures expenses == [] && recurring == []
    {
      expenses, recurring := [], [];
    }

    /** `generate_recurring_expenses_for_month`: one pass over the rules,
        inserting the expense of each eligible rule that is not already
        there; returns how many were inserted. */
    method GenerateRecurringExpensesForMonth(year: int, month: int) returns (count: nat)
      modifies this
      ensures recurring == old(recurring)
      ensures expenses == old(expenses) + Generated(recurring, year, month, old(expenses))
      ensures count == |Generated(recurring, year, month, old(expenses))|
    {
      count := 0;
      var i := 0;
      while i < |recurring|
        invariant 0 <= i <= |recurring| && recurring == old(recurring)
        invariant |old(expenses)| <= |expenses| && count == |expenses| - |old(expenses)|
        invariant expenses[..|old(expenses)|] == old(expenses)
        invariant expenses + Generated(recurring[i..], year, month, expenses)
                  == old(expenses) + Generated(recurring, year, month, old(expenses))
      {
        var rule := recurring[i];
        assert recurring[i..][1..] == recurring[i + 1..];
        var skip := false;
        if !Started(rule, year, month) || !rule.active {
          skip := true;
        } else if rule.durationType == ForMonths && rule.durationMonths.Some? {
          var monthsPassed := (year - rule.startYear) * 12 + (month - rule.startMonth);
          if monthsPassed >= rule.durationMonths.value {
            skip := true;
          }
        }
        if !skip {
          skip := AlreadyThere(expenses, rule, year, month);
        }
        if !skip {
          expenses := expenses + [Instance(rule, year, month)];
          count := count + 1;
        }
        i := i + 1;
      }
      assert expenses[..|old(expenses)|] + expenses[|old(expenses)|..] == expenses;
    }
  }
}
