/**
 * budget_module.py: the state of `BudgetWidget` (the month shown, the day
 * selected, the per-day data behind the calendar), the calendar grid, the
 * click on a day cell, the income table grouped by category, and the record
 * `RecurringExpenseDialog.save` builds.
 *
 * `calendar.monthrange`, `isocalendar` and `datetime.now` are parameters;
 * the widgets themselves are reduced to the values they display.
 */
module Budget {
  import opened Wrappers
  import opened Strings
  import opened Recurring

  /** `INCOME_CATEGORIES`, in display order. */
  const IncomeCategories: seq<string> := ["Wypłata", "Premia", "800+", "Sprzedaż OLX", "Inne"]

  /** A row of `budget_income` as `get_budget_income` returns it. */
  datatype Income = Income(year: int, month: int, day: int, category: string, amount: real, comment: Option<string>)

  function IncomeDay(x: Income): int { x.day }
  function IncomeAmount(x: Income): real { x.amount }
  function IncomeCategory(x: Income): string { x.category }
  function ExpenseDay(x: Expense): int { x.day }
  function ExpenseAmount(x: Expense): real { x.amount }

  // ---------------------------------------------------------------- months

  datatype YearMonth = YearMonth(year: int, month: int)

  predicate ValidMonth(ym: YearMonth) { 1 <= ym.month <= 12 }

  /** Months counted from year 0, so that consecutive months differ by one. */
  function MonthIndex(ym: YearMonth): int { ym.year * 12 + (ym.month - 1) }

  lemma MonthIndexInjective(a: YearMonth, b: YearMonth)
    requires ValidMonth(a) && ValidMonth(b) && MonthIndex(a) == MonthIndex(b)
    ensures a == b
  {
  }

  /** The month after `ym` (`next_month`). */
  function NextMonthOf(ym: YearMonth): (n: YearMonth)
    ensures ValidMonth(ym) ==> ValidMonth(n) && MonthIndex(n) == MonthIndex(ym) + 1
  {
    if ym.month == 12 then YearMonth(ym.year + 1, 1) else YearMonth(ym.year, ym.month + 1)
  }

  /** The month before `ym` (`prev_month`). */
  function PrevMonthOf(ym: YearMonth): (p: YearMonth)
    ensures ValidMonth(ym) ==> ValidMonth(p) && MonthIndex(p) == MonthIndex(ym) - 1
  {
    if ym.month == 1 then YearMonth(ym.year - 1, 12) else YearMonth(ym.year, ym.month - 1)
  }

  /** Stepping back undoes stepping forward and the other way round. */
  lemma PrevUndoesNext(ym: YearMonth)
    requires ValidMonth(ym)
    ensures PrevMonthOf(NextMonthOf(ym)) == ym
    ensures NextMonthOf(PrevMonthOf(ym)) == ym
  {
    MonthIndexInjective(PrevMonthOf(NextMonthOf(ym)), ym);
    MonthIndexInjective(NextMonthOf(PrevMonthOf(ym)), ym);
  }

  /** k steps forward from the start month of a recurring rule reach the
      month whose `months_passed` is k. */
  lemma MonthsPassedCountsSteps(r: RecurringRule, ym: YearMonth)
    requires ValidMonth(ym)
    ensures MonthsPassed(r, NextMonthOf(ym).year, NextMonthOf(ym).month) == MonthsPassed(r, ym.year, ym.month) + 1
  {
  }

  // ---------------------------------------------------------------- calendar grid

  /** `num_weeks = (num_days + first_weekday + 6) // 7` */
  function NumWeeks(numDays: int, firstWeekday: int): int {
    (numDays + firstWeekday + 6) / 7
  }

  /** The day of the month that cell (week, weekday) of the grid stands for;
      it is a real day when it lies in 1..numDays. */
  function DayAt(firstWeekday: int, week: int, weekday: int): int {
    7 * week + weekday - firstWeekday + 1
  }

  function RowOf(firstWeekday: int, d: int): int { (d - 1 + firstWeekday) / 7 }

  /** Column 0 holds the week number, so weekday w is column w + 1. */
  function ColOf(firstWeekday: int, d: int): int { (d - 1 + firstWeekday) % 7 + 1 }

  /** Every day fits in the grid, in a day column, at exactly one cell. */
  lemma DayPlacement(numDays: int, firstWeekday: int, d: int)
    requires 0 <= firstWeekday <= 6 && 1 <= d <= numDays
    ensures 0 <= RowOf(firstWeekday, d) < NumWeeks(numDays, firstWeekday)
    ensures 1 <= ColOf(firstWeekday, d) <= 7
    ensures DayAt(firstWeekday, RowOf(firstWeekday, d), ColOf(firstWeekday, d) - 1) == d
    ensures forall w, wd :: 0 <= w && 0 <= wd < 7 && DayAt(firstWeekday, w, wd) == d ==>
              w == RowOf(firstWeekday, d) && wd + 1 == ColOf(firstWeekday, d)
  {
    var x := d - 1 + firstWeekday;
    assert x == 7 * (x / 7) + x % 7;
    forall w, wd | 0 <= w && 0 <= wd < 7 && DayAt(firstWeekday, w, wd) == d
      ensures w == RowOf(firstWeekday, d) && wd + 1 == ColOf(firstWeekday, d)
    {
      assert x == 7 * w + wd;
    }
  }

  /** The grid has no spare row: its last row still holds a day. */
  lemma NoEmptyRow(numDays: int, firstWeekday: int)
    requires 0 <= firstWeekday <= 6 && 1 <= numDays
    ensures NumWeeks(numDays, firstWeekday) >= 1
    ensures RowOf(firstWeekday, numDays) == NumWeeks(numDays, firstWeekday) - 1
  {
  }

  /** The day whose week number labels row `week`: day 1 for the first row,
      the Monday of the row otherwise. */
  function FirstDayOfRow(firstWeekday: int, week: int): int {
    if week == 0 then 1 else DayAt(firstWeekday, week, 0)
  }

  /** The label day of a row is a day of the month and the first one in
      that row. */
  lemma FirstDayOfRowIsFirst(numDays: int, firstWeekday: int, week: int)
    requires 0 <= firstWeekday <= 6 && 1 <= numDays && 0 <= week < NumWeeks(numDays, firstWeekday)
    ensures 1 <= FirstDayOfRow(firstWeekday, week) <= numDays
    ensures RowOf(firstWeekday, FirstDayOfRow(firstWeekday, week)) == week
    ensures forall d :: 1 <= d < FirstDayOfRow(firstWeekday, week) ==> RowOf(firstWeekday, d) < week
  {
  }

  /** The date `setup_calendar` takes the week number from: day 1 in a
      first row that starts before the 1st, otherwise the running day,
      never past the last day; it is the row's first day. */
  lemma WeekDateIsFirstDay(numDays: int, firstWeekday: int, week: int, day: int)
    requires 0 <= firstWeekday <= 6 && 1 <= numDays && 0 <= week < NumWeeks(numDays, firstWeekday)
    requires day == Counter(numDays, DayAt(firstWeekday, week, 0))
    ensures (if week == 0 && firstWeekday > 0 then 1 else if day <= numDays then day else numDays)
            == FirstDayOfRow(firstWeekday, week)
  {
    FirstDayOfRowIsFirst(numDays, firstWeekday, week);
  }

  /** The red dot line added to a day that has expenses. */
  const Marker: string := "\n" + ['\U{1F534}']

  /** A cell of the calendar table: week number, empty, or a day. */
  datatype Cell = WeekCell(text: string) | Blank | DayCell(text: string)

  /** `day` clamped to 1..numDays+1: the value the grid's running day counter
      has when it reaches a cell. */
  function Counter(numDays: int, x: int): int {
    if x < 1 then 1 else if x > numDays + 1 then numDays + 1 else x
  }

  /** The text `on_calendar_day_clicked` reads a day from: `None` for the
      week column, blank cells and text that does not start with a number. */
  function ClickedDay(column: int, text: string): Option<int> {
    if column == 0 then None
    else
      var t := Strip(text);
      if t == [] then None else ParseInt(FirstLine(t))
  }

  /** The day text of a cell, `str(d)` with the marker when `marked`. */
  function DayText(d: nat, marked: bool): (s: string)
    ensures |NatToString(d)| <= |s| && s[..|NatToString(d)|] == NatToString(d)
  {
    NatToString(d) + (if marked then Marker else "")
  }

  /** Clicking a day cell selects the day it shows, dot or not. */
  lemma ClickRecoversDay(d: nat, marked: bool, column: int)
    requires 1 <= column <= 7
    ensures ClickedDay(column, DayText(d, marked)) == Some(d)
  {
    var s := NatToString(d);
    var t := DayText(d, marked);
    assert !IsSpace(t[0]);
    assert !IsSpace(t[|t| - 1]) by {
      if !marked { assert t[|t| - 1] == s[|s| - 1]; }
    }
    StripSpec(t);
    assert '\n' !in s by {
      forall i | 0 <= i < |s| ensures s[i] != '\n' { assert IsDigit(s[i]); }
    }
    if marked {
      FirstLineOfLines(s, ['\U{1F534}']);
      assert t == s + "\n" + ['\U{1F534}'];
    } else {
      assert |FirstLine(s)| == |s|;
    }
    ParseIntOfNatToString(d);
  }

  /** Blank cells and the week column select nothing. */
  lemma ClickOutsideDays(text: string)
    ensures ClickedDay(0, text) == None
    ensures forall column :: ClickedDay(column, "") == None
  {
  }

  // ---------------------------------------------------------------- grouping

  /** The rows whose key is `k`, in order (`[x for x in rows if key(x) == k]`). */
  function Select<T, K(==)>(rows: seq<T>, k: K, keyOf: T -> K): seq<T>
  {
    if rows == [] then []
    else Select(rows[..|rows| - 1], k, keyOf) + (if keyOf(rows[|rows| - 1]) == k then [rows[|rows| - 1]] else [])
  }

  /** The keys that occur in `rows`. */
  function KeysOf<T, K(==)>(rows: seq<T>, keyOf: T -> K): set<K>
  {
    if rows == [] then {} else KeysOf(rows[..|rows| - 1], keyOf) + {keyOf(rows[|rows| - 1])}
  }

  /** `sum(amount(x) for x in rows)` */
  function SumOf<T>(rows: seq<T>, amountOf: T -> real): real {
    if rows == [] then 0.0 else SumOf(rows[..|rows| - 1], amountOf) + amountOf(rows[|rows| - 1])
  }

  lemma KeysOfSnoc<T, K>(rows: seq<T>, x: T, keyOf: T -> K)
    ensures KeysOf(rows + [x], keyOf) == KeysOf(rows, keyOf) + {keyOf(x)}
  {
    assert (rows + [x])[..|rows + [x]| - 1] == rows;
  }

  /** No row has key `k` exactly when the selection for `k` is empty. */
  lemma {:induction false} SelectEmpty<T, K>(rows: seq<T>, k: K, keyOf: T -> K)
    ensures Select(rows, k, keyOf) == [] <==> k !in KeysOf(rows, keyOf)
  {
    if rows != [] {
      var init := rows[..|rows| - 1];
      SelectEmpty(init, k, keyOf);
      assert rows == init + [rows[|rows| - 1]];
      KeysOfSnoc(init, rows[|rows| - 1], keyOf);
    }
  }

  /** Summing a selection is summing the rows with that key, so a key that
      does not occur sums to zero. */
  lemma {:induction false} SumOfSelectAbsent<T, K>(rows: seq<T>, k: K, keyOf: T -> K, amountOf: T -> real)
    requires k !in KeysOf(rows, keyOf)
    ensures SumOf(Select(rows, k, keyOf), amountOf) == 0.0
  {
    SelectEmpty(rows, k, keyOf);
  }

  lemma SelectSnoc<T, K>(rows: seq<T>, x: T, k: K, keyOf: T -> K)
    ensures Select(rows + [x], k, keyOf) == Select(rows, k, keyOf) + (if keyOf(x) == k then [x] else [])
  {
    assert (rows + [x])[..|rows + [x]| - 1] == rows;
  }

  lemma SumOfSnoc<T>(rows: seq<T>, x: T, amountOf: T -> real)
    ensures SumOf(rows + [x], amountOf) == SumOf(rows, amountOf) + amountOf(x)
  {
    assert (rows + [x])[..|rows + [x]| - 1] == rows;
  }

  /** `daily_data[d]` */
  datatype DayTotals = DayTotals(income: real, expense: real)

  /** Day `d` has an entry in all three maps exactly when it has an income
      or an expense. */
  ghost predicate DayKeyed(data: map<int, DayTotals>, di: map<int, seq<Income>>, de: map<int, seq<Expense>>,
                           incomes: seq<Income>, expenses: seq<Expense>, d: int)
  {
    && (d in data <==> d in KeysOf(incomes, IncomeDay) || d in KeysOf(expenses, ExpenseDay))
    && (d in di <==> d in data) && (d in de <==> d in data)
  }

  /** The lists kept for day `d` are that day's rows, in order. */
  ghost predicate DayListed(di: map<int, seq<Income>>, de: map<int, seq<Expense>>,
                            incomes: seq<Income>, expenses: seq<Expense>, d: int)
  {
    && (d in di ==> di[d] == Select(incomes, d, IncomeDay))
    && (d in de ==> de[d] == Select(expenses, d, ExpenseDay))
  }

  /** The totals kept for day `d` are the sums of that day's amounts. */
  ghost predicate DaySummed(data: map<int, DayTotals>, incomes: seq<Income>, expenses: seq<Expense>, d: int)
  {
    d in data ==> data[d] == DayTotals(SumOf(Select(incomes, d, IncomeDay), IncomeAmount),
                                       SumOf(Select(expenses, d, ExpenseDay), ExpenseAmount))
  }

  /** What `update_calendar_with_data` keeps for day `d` after grouping
      `incomes` and `expenses`. */
  ghost predicate DayGrouped(data: map<int, DayTotals>, di: map<int, seq<Income>>, de: map<int, seq<Expense>>,
                             incomes: seq<Income>, expenses: seq<Expense>, d: int)
  {
    DayKeyed(data, di, de, incomes, expenses, d) && DayListed(di, de, incomes, expenses, d) && DaySummed(data, incomes, expenses, d)
  }

  /** The three per-day maps hold the grouping of `incomes` and `expenses`. */
  ghost predicate Grouped(data: map<int, DayTotals>, di: map<int, seq<Income>>, de: map<int, seq<Expense>>,
                          incomes: seq<Income>, expenses: seq<Expense>)
  {
    forall d :: DayGrouped(data, di, de, incomes, expenses, d)
  }

  /** `daily_data[d]`, or the zero totals a new day starts from. */
  function TotalsOn(data: map<int, DayTotals>, d: int): DayTotals {
    if d in data then data[d] else DayTotals(0.0, 0.0)
  }

  /** `daily_incomes[d]` / `daily_expenses[d]`, or the empty list a new day starts from. */
  function ListOn<T>(m: map<int, seq<T>>, d: int): seq<T> {
    if d in m then m[d] else []
  }

  /** Adding income `x` to its day, creating the day's entry if needed,
      keeps day e grouped. */
  lemma AddIncomeOnDay(data: map<int, DayTotals>, di: map<int, seq<Income>>, de: map<int, seq<Expense>>,
                       data': map<int, DayTotals>, di': map<int, seq<Income>>, de': map<int, seq<Expense>>,
                       seen: seq<Income>, x: Income, e: int)
    requires DayGrouped(data, di, de, seen, [], e)
    requires data' == data[x.day := TotalsOn(data, x.day).(income := TotalsOn(data, x.day).income + x.amount)]
    requires di' == di[x.day := ListOn(di, x.day) + [x]] && de' == de[x.day := ListOn(de, x.day)]
    ensures DayGrouped(data', di', de', seen + [x], [], e)
  {
    var none: seq<Expense> := [];
    assert Select(none, e, ExpenseDay) == [] && KeysOf(none, ExpenseDay) == {};
    SelectSnoc(seen, x, e, IncomeDay);
    assert DayKeyed(data', di', de', seen + [x], none, e) by {
      KeysOfSnoc(seen, x, IncomeDay);
    }
    assert DayListed(di', de', seen + [x], none, e) by {
      if e == x.day && x.day !in data {
        SelectEmpty(seen, x.day, IncomeDay);
      }
    }
    if e == x.day {
      IncomeDaySummed(data, di, de, data', seen, x);
    }
  }

  /** The new total of the income's own day is the old one plus its amount. */
  lemma IncomeDaySummed(data: map<int, DayTotals>, di: map<int, seq<Income>>, de: map<int, seq<Expense>>,
                        data': map<int, DayTotals>, seen: seq<Income>, x: Income)
    requires DayKeyed(data, di, de, seen, [], x.day) && DaySummed(data, seen, [], x.day)
    requires data' == data[x.day := TotalsOn(data, x.day).(income := TotalsOn(data, x.day).income + x.amount)]
    ensures DaySummed(data', seen + [x], [], x.day)
  {
    var d := x.day;
    var none: seq<Expense> := [];
    assert Select(none, d, ExpenseDay) == [] && KeysOf(none, ExpenseDay) == {};
    var before := Select(seen, d, IncomeDay);
    SelectSnoc(seen, x, d, IncomeDay);
    assert Select(seen + [x], d, IncomeDay) == before + [x];
    SumOfSnoc(before, x, IncomeAmount);
    if d !in data {
      SelectEmpty(seen, d, IncomeDay);
      assert before == [];
    } else {
      assert TotalsOn(data, d) == DayTotals(SumOf(before, IncomeAmount), 0.0);
    }
    assert data'[d] == DayTotals(SumOf(before, IncomeAmount) + x.amount, 0.0);
  }

  /** Adding income i to its day keeps every day grouped. */
  lemma AddIncomeStep(data: map<int, DayTotals>, di: map<int, seq<Income>>, de: map<int, seq<Expense>>,
                      incomes: seq<Income>, i: int)
    requires 0 <= i < |incomes| && Grouped(data, di, de, incomes[..i], [])
    ensures var x := incomes[i];
            Grouped(data[x.day := TotalsOn(data, x.day).(income := TotalsOn(data, x.day).income + x.amount)],
                    di[x.day := ListOn(di, x.day) + [x]], de[x.day := ListOn(de, x.day)], incomes[..i + 1], [])
  {
    var x := incomes[i];
    var data' := data[x.day := TotalsOn(data, x.day).(income := TotalsOn(data, x.day).income + x.amount)];
    var di' := di[x.day := ListOn(di, x.day) + [x]];
    var de' := de[x.day := ListOn(de, x.day)];
    var seen := incomes[..i];
    var seen' := incomes[..i + 1];
    assert seen' == seen + [x];
    var none: seq<Expense> := [];
    forall e ensures DayGrouped(data', di', de', seen', none, e) {
      AddIncomeOnDay(data, di, de, data', di', de', seen, x, e);
    }
  }

  /** Adding expense `x` to its day, creating the day's entry if needed,
      keeps day e grouped. */
  lemma AddExpenseOnDay(data: map<int, DayTotals>, di: map<int, seq<Income>>, de: map<int, seq<Expense>>,
                        data': map<int, DayTotals>, di': map<int, seq<Income>>, de': map<int, seq<Expense>>,
                        incomes: seq<Income>, seen: seq<Expense>, x: Expense, e: int)
    requires DayGrouped(data, di, de, incomes, seen, e)
    requires data' == data[x.day := TotalsOn(data, x.day).(expense := TotalsOn(data, x.day).expense + x.amount)]
    requires di' == di[x.day := ListOn(di, x.day)] && de' == de[x.day := ListOn(de, x.day) + [x]]
    ensures DayGrouped(data', di', de', incomes, seen + [x], e)
  {
    var d := x.day;
    SelectSnoc(seen, x, e, ExpenseDay);
    assert DayKeyed(data', di', de', incomes, seen + [x], e) by {
      KeysOfSnoc(seen, x, ExpenseDay);
    }
    assert DayListed(di', de', incomes, seen + [x], e) by {
      if e == d && d !in data {
        SelectEmpty(incomes, d, IncomeDay);
        SelectEmpty(seen, d, ExpenseDay);
      }
    }
    if e == d {
      ExpenseDaySummed(data, di, de, data', incomes, seen, x);
    }
  }

  /** The new expense total of the expense's own day is the old one plus its
      amount; its income total stays. */
  lemma ExpenseDaySummed(data: map<int, DayTotals>, di: map<int, seq<Income>>, de: map<int, seq<Expense>>,
                         data': map<int, DayTotals>, incomes: seq<Income>, seen: seq<Expense>, x: Expense)
    requires DayKeyed(data, di, de, incomes, seen, x.day) && DaySummed(data, incomes, seen, x.day)
    requires data' == data[x.day := TotalsOn(data, x.day).(expense := TotalsOn(data, x.day).expense + x.amount)]
    ensures DaySummed(data', incomes, seen + [x], x.day)
  {
    var d := x.day;
    var before := Select(seen, d, ExpenseDay);
    var mine := Select(incomes, d, IncomeDay);
    SelectSnoc(seen, x, d, ExpenseDay);
    assert Select(seen + [x], d, ExpenseDay) == before + [x];
    SumOfSnoc(before, x, ExpenseAmount);
    if d !in data {
      SelectEmpty(incomes, d, IncomeDay);
      SelectEmpty(seen, d, ExpenseDay);
      assert before == [] && mine == [];
    } else {
      assert TotalsOn(data, d) == DayTotals(SumOf(mine, IncomeAmount), SumOf(before, ExpenseAmount));
    }
    assert data'[d] == DayTotals(SumOf(mine, IncomeAmount), SumOf(before, ExpenseAmount) + x.amount);
  }

  /** Adding expense j to its day keeps every day grouped. */
  lemma AddExpenseStep(data: map<int, DayTotals>, di: map<int, seq<Income>>, de: map<int, seq<Expense>>,
                       incomes: seq<Income>, expenses: seq<Expense>, j: int)
    requires 0 <= j < |expenses| && Grouped(data, di, de, incomes, expenses[..j])
    ensures var x := expenses[j];
            Grouped(data[x.day := TotalsOn(data, x.day).(expense := TotalsOn(data, x.day).expense + x.amount)],
                    di[x.day := ListOn(di, x.day)], de[x.day := ListOn(de, x.day) + [x]], incomes, expenses[..j + 1])
  {
    var x := expenses[j];
    var data' := data[x.day := TotalsOn(data, x.day).(expense := TotalsOn(data, x.day).expense + x.amount)];
    var di' := di[x.day := ListOn(di, x.day)];
    var de' := de[x.day := ListOn(de, x.day) + [x]];
    var seen := expenses[..j];
    var seen' := expenses[..j + 1];
    assert seen' == seen + [x];
    forall e ensures DayGrouped(data', di', de', incomes, seen', e) {
      AddExpenseOnDay(data, di, de, data', di', de', incomes, seen, x, e);
    }
  }

  // ---------------------------------------------------------------- income table

  /** One row of the income table: category, total, comment column. */
  datatype IncomeRow = IncomeRow(category: string, total: real, comments: string)

  /** Python truthiness of the comment column. */
  predicate HasComment(c: Option<string>) { c.Some? && c.value != "" }

  /** `f"[{day}.{month}] {comment}"` for every income with a comment. */
  function CommentLines(items: seq<Income>, month: int): seq<string> {
    if items == [] then []
    else
      var last := items[|items| - 1];
      CommentLines(items[..|items| - 1], month)
      + (if HasComment(last.comment)
         then ["[" + IntToString(last.day) + "." + IntToString(month) + "] " + last.comment.value]
         else [])
  }

  /** The comment column: the lines joined by line breaks, or "-". */
  function CommentText(items: seq<Income>, month: int): string {
    var lines := CommentLines(items, month);
    if lines == [] then "-" else Join("\n", lines)
  }

  /** `incomes_by_category` holds, for category `c`, the incomes of that
      category in order, and has an entry exactly when there is one. */
  ghost predicate CategoryListed(m: map<string, seq<Income>>, incomes: seq<Income>, c: string) {
    && (c in m <==> c in KeysOf(incomes, IncomeCategory))
    && (c in m ==> m[c] == Select(incomes, c, IncomeCategory))
  }

  ghost predicate ByCategory(m: map<string, seq<Income>>, incomes: seq<Income>) {
    forall c :: CategoryListed(m, incomes, c)
  }

  /** `incomes_by_category[c]`, or the empty list a new category starts from. */
  function ItemsOf(m: map<string, seq<Income>>, c: string): seq<Income> {
    if c in m then m[c] else []
  }

  /** Appending income `x` to its category keeps category c listed. */
  lemma AddToCategoryOn(m: map<string, seq<Income>>, m': map<string, seq<Income>>, seen: seq<Income>, x: Income, c: string)
    requires CategoryListed(m, seen, c) && m' == m[x.category := ItemsOf(m, x.category) + [x]]
    ensures CategoryListed(m', seen + [x], c)
  {
    KeysOfSnoc(seen, x, IncomeCategory);
    SelectSnoc(seen, x, c, IncomeCategory);
    if c == x.category && c !in m {
      SelectEmpty(seen, c, IncomeCategory);
    }
  }

  /** Appending income i to its category keeps every category listed. */
  lemma AddToCategory(m: map<string, seq<Income>>, incomes: seq<Income>, i: int)
    requires 0 <= i < |incomes| && ByCategory(m, incomes[..i])
    ensures ByCategory(m[incomes[i].category := ItemsOf(m, incomes[i].category) + [incomes[i]]], incomes[..i + 1])
  {
    var x := incomes[i];
    var m' := m[x.category := ItemsOf(m, x.category) + [x]];
    var seen := incomes[..i];
    var seen' := incomes[..i + 1];
    assert seen' == seen + [x];
    forall c ensures CategoryListed(m', seen', c) {
      AddToCategoryOn(m, m', seen, x, c);
    }
  }

  /** The rows `load_income_data` shows for categories `cats`. */
  function IncomeRows(cats: seq<string>, incomes: seq<Income>, month: int): seq<IncomeRow> {
    if cats == [] then []
    else
      var c := cats[|cats| - 1];
      var items := Select(incomes, c, IncomeCategory);
      IncomeRows(cats[..|cats| - 1], incomes, month)
      + (if c in KeysOf(incomes, IncomeCategory) then [IncomeRow(c, SumOf(items, IncomeAmount), CommentText(items, month))] else [])
  }

  /** The categories of `cats` that have entries, in the order of `cats`. */
  function Present(cats: seq<string>, keys: set<string>): (p: seq<string>)
    ensures |p| <= |cats|
    ensures forall c :: c in p <==> c in cats && c in keys
  {
    if cats == [] then []
    else
      var init := cats[..|cats| - 1];
      assert cats == init + [cats[|cats| - 1]];
      Present(init, keys) + (if cats[|cats| - 1] in keys then [cats[|cats| - 1]] else [])
  }

  /** The category column of the income table, top to bottom. */
  function CategoriesOf(rows: seq<IncomeRow>): seq<string> {
    seq(|rows|, k requires 0 <= k < |rows| => rows[k].category)
  }

  predicate NoDuplicates(s: seq<string>) {
    forall i, j :: 0 <= i < j < |s| ==> s[i] != s[j]
  }

  /** A filter of a list without duplicates has none either. */
  lemma {:induction false} PresentNoDuplicates(cats: seq<string>, keys: set<string>)
    requires NoDuplicates(cats)
    ensures NoDuplicates(Present(cats, keys))
  {
    if cats != [] {
      var init := cats[..|cats| - 1];
      var c := cats[|cats| - 1];
      assert NoDuplicates(init);
      PresentNoDuplicates(init, keys);
      assert forall i :: 0 <= i < |init| ==> init[i] == cats[i] != c;
      assert c !in Present(init, keys);
    }
  }

  /** The income table lists exactly the categories of `cats` that have
      entries, in the order of `cats`; every row's total is the sum of that
      category's amounts. */
  lemma {:induction false} IncomeRowsSpec(cats: seq<string>, incomes: seq<Income>, month: int)
    ensures CategoriesOf(IncomeRows(cats, incomes, month)) == Present(cats, KeysOf(incomes, IncomeCategory))
    ensures forall r :: r in IncomeRows(cats, incomes, month) ==>
              r.category in cats && r.category in KeysOf(incomes, IncomeCategory)
              && r.total == SumOf(Select(incomes, r.category, IncomeCategory), IncomeAmount)
    ensures forall c :: c in cats && c in KeysOf(incomes, IncomeCategory) ==>
              exists r :: r in IncomeRows(cats, incomes, month) && r.category == c
    ensures |IncomeRows(cats, incomes, month)| <= |cats|
  {
    if cats != [] {
      var init := cats[..|cats| - 1];
      IncomeRowsSpec(init, incomes, month);
      var c := cats[|cats| - 1];
      assert forall x :: x in cats <==> x in init || x == c by {
        assert cats == init + [c];
      }
      var rows := IncomeRows(cats, incomes, month);
      var before := IncomeRows(init, incomes, month);
      var items := Select(incomes, c, IncomeCategory);
      var extra := if c in KeysOf(incomes, IncomeCategory) then [IncomeRow(c, SumOf(items, IncomeAmount), CommentText(items, month))] else [];
      assert rows == before + extra;
      assert CategoriesOf(rows) == CategoriesOf(before) + CategoriesOf(extra);
      forall x | x in cats && x in KeysOf(incomes, IncomeCategory)
        ensures exists r :: r in rows && r.category == x
      {
        if x != c {
          var r :| r in before && r.category == x;
          assert r in rows;
        } else {
          assert rows[|rows| - 1] in rows;
        }
      }
    }
  }

  /** `INCOME_CATEGORIES` names each category once. */
  lemma IncomeCategoriesNoDuplicates()
    ensures NoDuplicates(IncomeCategories)
  {
    var cs := IncomeCategories;
    assert cs[0][0] == 'W' && cs[1][0] == 'P' && cs[2][0] == '8' && cs[3][0] == 'S' && cs[4][0] == 'I';
  }

  /** The table `load_income_data` shows has one row per income category
      with entries, in `INCOME_CATEGORIES` order, and no category twice. */
  lemma IncomeTableOneRowPerCategory(incomes: seq<Income>, month: int)
    ensures CategoriesOf(IncomeRows(IncomeCategories, incomes, month)) == Present(IncomeCategories, KeysOf(incomes, IncomeCategory))
    ensures NoDuplicates(CategoriesOf(IncomeRows(IncomeCategories, incomes, month)))
  {
    IncomeRowsSpec(IncomeCategories, incomes, month);
    IncomeCategoriesNoDuplicates();
    PresentNoDuplicates(IncomeCategories, KeysOf(incomes, IncomeCategory));
  }

  // ---------------------------------------------------------------- recurring dialog

  /** What the recurring-expense dialog holds when the user presses save. */
  datatype RecurringForm = RecurringForm(
    category: string, subcategory: string, amount: real, dayOfMonth: int,
    startYear: int, startMonthIndex: int, durationIndex: int, durationMonthsSpin: int,
    comment: string, editingId: Option<int>)

  /** `result_data` built by `save`. */
  datatype RecurringData = RecurringData(
    category: string, subcategory: string, amount: real, dayOfMonth: int,
    startYear: int, startMonth: int, durationType: DurationType, durationMonths: Option<int>,
    comment: string, id: Option<int>)

  /** `RecurringExpenseDialog.save` */
  function SaveRecurringForm(f: RecurringForm): (d: RecurringData)
    ensures d.durationType == Indefinite <==> f.durationIndex == 0
    ensures d.durationMonths.None? <==> d.durationType == Indefinite
    ensures d.durationMonths.Some? ==> d.durationMonths.value == f.durationMonthsSpin
    ensures d.startMonth == f.startMonthIndex + 1
    ensures d.id == f.editingId
    ensures d.category == f.category && d.subcategory == f.subcategory && d.amount == f.amount
    ensures d.dayOfMonth == f.dayOfMonth && d.startYear == f.startYear && d.comment == f.comment
  {
    var durationType := if f.durationIndex == 0 then Indefinite else ForMonths;
    var durationMonths := if durationType == ForMonths then Some(f.durationMonthsSpin) else None;
    RecurringData(f.category, f.subcategory, f.amount, f.dayOfMonth, f.startYear, f.startMonthIndex + 1,
                  durationType, durationMonths, f.comment, f.editingId)
  }

  /** The rule stored from the saved record (active, as `add_recurring_expense` stores it). */
  function RuleOf(d: RecurringData): RecurringRule {
    RecurringRule(d.category, Some(d.subcategory), d.amount, Some(d.comment), d.dayOfMonth,
                  d.startYear, d.startMonth, d.durationType, d.durationMonths, true)
  }

  /** A rule saved for "k months" is generated in exactly the k months from
      its start month; an indefinite one in every month from its start. */
  lemma SavedRuleSchedule(f: RecurringForm, ym: YearMonth)
    requires 0 <= f.startMonthIndex < 12 && ValidMonth(ym)
    ensures var r := RuleOf(SaveRecurringForm(f));
            var passed := MonthsPassed(r, ym.year, ym.month);
            && (f.durationIndex != 0 ==> (Eligible(r, ym.year, ym.month) <==> 0 <= passed < f.durationMonthsSpin))
            && (f.durationIndex == 0 ==> (Eligible(r, ym.year, ym.month) <==> 0 <= passed))
  {
    EligibleWindow(RuleOf(SaveRecurringForm(f)), ym.year, ym.month);
  }

  // ---------------------------------------------------------------- the widget

  /** The cell last clicked, by position. */
  datatype CellRef = CellRef(row: int, column: int)

  class BudgetView {
    var currentYear: int
    var currentMonth: int
    var selectedDay: Option<int>
    var selectedCell: Option<CellRef>
    var dailyData: map<int, DayTotals>
    var dailyIncomes: map<int, seq<Income>>
    var dailyExpenses: map<int, seq<Expense>>
    /** The calendar table, row by row, eight cells per row. */
    var grid: seq<seq<Cell>>
    /** The income table. */
    var incomeRows: seq<IncomeRow>

    ghost predicate Valid()
      reads this
    {
      1 <= currentMonth <= 12
    }

    /** `__init__`: the current month, nothing selected, no data yet. */
    constructor (nowYear: int, nowMonth: int)
      requires 1 <= nowMonth <= 12
      ensures Valid() && currentYear == nowYear && currentMonth == nowMonth
      ensures selectedDay == None && selectedCell == None
      ensures dailyData == map[] && dailyIncomes == map[] && dailyExpenses == map[]
    {
      currentYear, currentMonth := nowYear, nowMonth;
      selectedDay, selectedCell := None, None;
      dailyData, dailyIncomes, dailyExpenses := map[], map[], map[];
      grid, incomeRows := [], [];
    }

    function Shown(): YearMonth
      reads this
    {
      YearMonth(currentYear, currentMonth)
    }

    /** `prev_month` */
    method PrevMonth()
      requires Valid()
      modifies this`currentYear, this`currentMonth, this`selectedDay, this`selectedCell
      ensures Valid() && Shown() == PrevMonthOf(old(Shown()))
      ensures selectedDay == None && selectedCell == None
    {
      if currentMonth == 1 {
        currentMonth := 12;
        currentYear := currentYear - 1;
      } else {
        currentMonth := currentMonth - 1;
      }
      selectedDay, selectedCell := None, None;
    }

    /** `next_month` */
    method NextMonth()
      requires Valid()
      modifies this`currentYear, this`currentMonth, this`selectedDay, this`selectedCell
      ensures Valid() && Shown() == NextMonthOf(old(Shown()))
      ensures selectedDay == None && selectedCell == None
    {
      if currentMonth == 12 {
        currentMonth := 1;
        currentYear := currentYear + 1;
      } else {
        currentMonth := currentMonth + 1;
      }
      selectedDay, selectedCell := None, None;
    }

    /** `go_to_today`, with today's year and month as parameters. */
    method GoToToday(nowYear: int, nowMonth: int)
      requires 1 <= nowMonth <= 12
      modifies this`currentYear, this`currentMonth, this`selectedDay, this`selectedCell
      ensures Valid() && Shown() == YearMonth(nowYear, nowMonth)
      ensures selectedDay == None && selectedCell == None
    {
      currentYear, currentMonth := nowYear, nowMonth;
      selectedDay, selectedCell := None, None;
    }

    /** `on_month_changed(index)` from the twelve-entry month box. */
    method OnMonthChanged(index: int)
      requires 0 <= index < 12
      modifies this`currentMonth, this`selectedDay, this`selectedCell
      ensures Valid() && currentMonth == index + 1
      ensures selectedDay == None && selectedCell == None
    {
      currentMonth := index + 1;
      selectedDay, selectedCell := None, None;
    }

    /** `on_year_changed(year)` */
    method OnYearChanged(year: int)
      modifies this`currentYear, this`selectedDay, this`selectedCell
      ensures currentYear == year
      ensures selectedDay == None && selectedCell == None
    {
      currentYear := year;
      selectedDay, selectedCell := None, None;
    }

    /** Whether day `d` draws the red dot. */
    predicate Marked(d: int)
      reads this`dailyExpenses
    {
      d in dailyExpenses && |dailyExpenses[d]| > 0
    }

    /** What cell (week, weekday + 1) of the grid shows. */
    function CellAt(numDays: int, firstWeekday: int, week: int, weekday: int): Cell
      reads this`dailyExpenses
    {
      var d := DayAt(firstWeekday, week, weekday);
      if 1 <= d <= numDays then DayCell(DayText(d, Marked(d))) else Blank
    }

    /** The inner loop of `setup_calendar` for row `week`: after the week
        cell, seven cells, each blank or the next day of the month, with
        `day` counting the days placed so far. */
    method WeekRow(numDays: int, firstWeekday: int, week: int, weekCell: Cell, day: int)
      returns (row: seq<Cell>, next: int)
      requires 1 <= numDays && 0 <= firstWeekday <= 6 && 0 <= week
      requires day == Counter(numDays, DayAt(firstWeekday, week, 0))
      ensures |row| == 8 && row[0] == weekCell
      ensures forall wd :: 0 <= wd < 7 ==> row[wd + 1] == CellAt(numDays, firstWeekday, week, wd)
      ensures next == Counter(numDays, DayAt(firstWeekday, week + 1, 0))
    {
      row := [weekCell];
      next := day;
      for weekday := 0 to 7
        invariant |row| == weekday + 1
        invariant row[0] == weekCell
        invariant next == Counter(numDays, DayAt(firstWeekday, week, weekday))
        invariant forall wd :: 0 <= wd < weekday ==> row[wd + 1] == CellAt(numDays, firstWeekday, week, wd)
      {
        if week == 0 && weekday < firstWeekday {
          row := row + [Blank];
        } else if next <= numDays {
          row := row + [DayCell(DayText(next, Marked(next)))];
          next := next + 1;
        } else {
          row := row + [Blank];
        }
      }
    }

    /** `setup_calendar` for a month of `numDays` days whose first day falls
        on weekday `firstWeekday` (Monday = 0); `isoWeek(d)` is the ISO week
        number of day d. */
    method SetupCalendar(numDays: int, firstWeekday: int, isoWeek: int -> nat)
      requires 1 <= numDays && 0 <= firstWeekday <= 6
      modifies this`grid
      ensures |grid| == NumWeeks(numDays, firstWeekday)
      ensures forall w :: 0 <= w < |grid| ==> |grid[w]| == 8
      ensures forall w :: 0 <= w < |grid| ==> grid[w][0] == WeekCell(NatToString(isoWeek(FirstDayOfRow(firstWeekday, w))))
      ensures forall w, wd :: 0 <= w < |grid| && 0 <= wd < 7 ==> grid[w][wd + 1] == CellAt(numDays, firstWeekday, w, wd)
    {
      var numWeeks := (numDays + firstWeekday + 6) / 7;
      var rows: seq<seq<Cell>> := [];
      var day := 1;
      for week := 0 to numWeeks
        invariant |rows| == week
        invariant day == Counter(numDays, DayAt(firstWeekday, week, 0))
        invariant forall w :: 0 <= w < week ==> |rows[w]| == 8
        invariant forall w :: 0 <= w < week ==> rows[w][0] == WeekCell(NatToString(isoWeek(FirstDayOfRow(firstWeekday, w))))
        invariant forall w, wd :: 0 <= w < week && 0 <= wd < 7 ==> rows[w][wd + 1] == CellAt(numDays, firstWeekday, w, wd)
      {
        var weekDate;
        if week == 0 && firstWeekday > 0 {
          weekDate := 1;
        } else if day <= numDays {
          weekDate := day;
        } else {
          weekDate := numDays;
        }
        WeekDateIsFirstDay(numDays, firstWeekday, week, day);
        var row;
        row, day := WeekRow(numDays, firstWeekday, week, WeekCell(NatToString(isoWeek(weekDate))), day);
        rows := rows + [row];
      }
      grid := rows;
    }

    /** `on_calendar_day_clicked` on the cell at (row, column) showing `text`:
        a day number selects that day and cell; anything else changes nothing. */
    method OnCalendarDayClicked(row: int, column: int, text: string)
      modifies this`selectedDay, this`selectedCell
      ensures ClickedDay(column, text).None? ==> selectedDay == old(selectedDay) && selectedCell == old(selectedCell)
      ensures ClickedDay(column, text).Some? ==> selectedDay == ClickedDay(column, text) && selectedCell == Some(CellRef(row, column))
    {
      if column == 0 {
        return;
      }
      var t := Strip(text);
      if t == [] {
        return;
      }
      var day := ParseInt(FirstLine(t));
      if day.None? {
        return;
      }
      selectedDay := day;
      selectedCell := Some(CellRef(row, column));
    }

    /** `update_calendar_with_data`: group the month's incomes and expenses by
        day, then redraw the calendar. */
    method UpdateCalendarWithData(incomes: seq<Income>, expenses: seq<Expense>,
                                  numDays: int, firstWeekday: int, isoWeek: int -> nat)
      requires 1 <= numDays && 0 <= firstWeekday <= 6
      modifies this`dailyData, this`dailyIncomes, this`dailyExpenses, this`grid
      ensures Grouped(dailyData, dailyIncomes, dailyExpenses, incomes, expenses)
      ensures |grid| == NumWeeks(numDays, firstWeekday)
      ensures forall w :: 0 <= w < |grid| ==> |grid[w]| == 8
      ensures forall w :: 0 <= w < |grid| ==> grid[w][0] == WeekCell(NatToString(isoWeek(FirstDayOfRow(firstWeekday, w))))
      ensures forall w, wd :: 0 <= w < |grid| && 0 <= wd < 7 ==> |grid[w]| == 8 && grid[w][wd + 1] == CellAt(numDays, firstWeekday, w, wd)
    {
      var totals: map<int, DayTotals> := map[];
      var byDayIncomes: map<int, seq<Income>> := map[];
      var byDayExpenses: map<int, seq<Expense>> := map[];
      assert incomes[..0] == [];
      for i := 0 to |incomes|
        invariant Grouped(totals, byDayIncomes, byDayExpenses, incomes[..i], [])
      {
        var income := incomes[i];
        var day := income.day;
        AddIncomeStep(totals, byDayIncomes, byDayExpenses, incomes, i);
        var t := TotalsOn(totals, day);
        var listed := ListOn(byDayIncomes, day);
        var none := ListOn(byDayExpenses, day);
        totals := totals[day := t.(income := t.income + income.amount)];
        byDayIncomes := byDayIncomes[day := listed + [income]];
        byDayExpenses := byDayExpenses[day := none];
      }
      assert incomes[..|incomes|] == incomes;
      assert expenses[..0] == [];
      for j := 0 to |expenses|
        invariant Grouped(totals, byDayIncomes, byDayExpenses, incomes, expenses[..j])
      {
        var expense := expenses[j];
        var day := expense.day;
        AddExpenseStep(totals, byDayIncomes, byDayExpenses, incomes, expenses, j);
        var t := TotalsOn(totals, day);
        var none := ListOn(byDayIncomes, day);
        var listed := ListOn(byDayExpenses, day);
        totals := totals[day := t.(expense := t.expense + expense.amount)];
        byDayIncomes := byDayIncomes[day := none];
        byDayExpenses := byDayExpenses[day := listed + [expense]];
      }
      assert expenses[..|expenses|] == expenses;
      dailyData, dailyIncomes, dailyExpenses := totals, byDayIncomes, byDayExpenses;
      SetupCalendar(numDays, firstWeekday, isoWeek);
    }

    /** `load_income_data`: group the incomes by category and show one row per
        income category that has entries, in `INCOME_CATEGORIES` order. */
    method LoadIncomeData(incomes: seq<Income>)
      modifies this`incomeRows
      ensures incomeRows == IncomeRows(IncomeCategories, incomes, currentMonth)
    {
      var byCategory: map<string, seq<Income>> := map[];
      assert incomes[..0] == [];
      for i := 0 to |incomes|
        invariant ByCategory(byCategory, incomes[..i])
      {
        var cat := incomes[i].category;
        AddToCategory(byCategory, incomes, i);
        var listed := ItemsOf(byCategory, cat);
        byCategory := byCategory[cat := listed + [incomes[i]]];
      }
      assert incomes[..|incomes|] == incomes;
      var rows: seq<IncomeRow> := [];
      for k := 0 to |IncomeCategories|
        invariant rows == IncomeRows(IncomeCategories[..k], incomes, currentMonth)
      {
        var category := IncomeCategories[k];
        assert IncomeCategories[..k + 1][..k] == IncomeCategories[..k];
        assert CategoryListed(byCategory, incomes, category);
        if category in byCategory {
          var items := byCategory[category];
          var total := SumOf(items, IncomeAmount);
          var comments: seq<string> := [];
          for j := 0 to |items|
            invariant comments == CommentLines(items[..j], currentMonth)
          {
            assert items[..j + 1][..j] == items[..j];
            if HasComment(items[j].comment) {
              comments := comments + ["[" + IntToString(items[j].day) + "." + IntToString(currentMonth) + "] " + items[j].comment.value];
            }
          }
          assert items[..|items|] == items;
          var commentText := if comments != [] then Join("\n", comments) else "-";
          rows := rows + [IncomeRow(category, total, commentText)];
        }
      }
      assert IncomeCategories[..|IncomeCategories|] == IncomeCategories;
      incomeRows := rows;
    }
  }

  /** After grouping, `daily_data[d]` agrees with the lists kept beside it:
      its income and expense are the sums of `daily_incomes[d]` and
      `daily_expenses[d]`; a day has the red dot exactly when it has an
      expense; and a day with no rows has no entry at all. */
  lemma DailyDataMatchesLists(data: map<int, DayTotals>, di: map<int, seq<Income>>, de: map<int, seq<Expense>>,
                              incomes: seq<Income>, expenses: seq<Expense>, d: int)
    requires Grouped(data, di, de, incomes, expenses)
    ensures d in data ==> d in di && d in de
                          && data[d] == DayTotals(SumOf(di[d], IncomeAmount), SumOf(de[d], ExpenseAmount))
    ensures (d in de && |de[d]| > 0) <==> d in KeysOf(expenses, ExpenseDay)
    ensures d !in data <==> d !in KeysOf(incomes, IncomeDay) && d !in KeysOf(expenses, ExpenseDay)
  {
    assert DayGrouped(data, di, de, incomes, expenses, d);
    SelectEmpty(expenses, d, ExpenseDay);
  }
}
