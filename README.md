# wallet-app core in Dafny

A model of wallet-app's core, a personal-finance desktop application, with proofs about it. Three parts are modelled:

- the parts of `database.py` that hold logic: its connection pool, the price cache and the portfolio view built over it, the take-profit ("HP") levels of the watch list with their state machine, the generation of recurring budget expenses, the list of opened levels of a strategy, the application settings with their per-module switches, and the password store with its failed-login lockout;
- the checks of `auth_module.py`: the recovery-key generator, the password-strength score, and the validation in the set-up, reset and change-password dialogs;
- the state of `BudgetWidget` in `budget_module.py`: month navigation, the calendar grid, the click on a day cell, the per-day grouping of incomes and expenses behind the calendar, the income table grouped by category, and the record the recurring-expense dialog saves.

Each SQLite table the core updates is a class with a `seq` or `map` field, and each of its methods states the table's whole new state. The SQL queries and the pure parts of the code are functions. Lemmas relate them: a second generation run is idempotent, a batch upsert is idempotent and the last update wins, the lowest triggered level is always the one handled, a generated recovery key always has the `XXXX-XXXX-XXXX-XXXX` form over a 32-letter alphabet, and a clicked calendar cell gives back the day it shows.

Modules, one per file: `Wrappers` and `Sets` (common.dfy), `Strings`, `Pool`, `PriceCache`, `Watchlist`, `Recurring`, `Strategies`, `Settings`, `AuthStore` (the password table), `Auth` (the dialogs) and `Budget`.

Conventions:

- Times are whole seconds, and the current time (`datetime('now')`, `datetime.now()`) is a parameter `now`.
- A bcrypt hash is `Digest(secret)`, and `bcrypt.checkpw` is `Checks`, which accepts exactly the secret the hash was made from. For secrets of at most 72 bytes in UTF-8, that is what bcrypt does.
- Amounts of money are `real`.
- `secrets.choice` draws are a parameter `picks`, that is, indices into the alphabet.
- `calendar.monthrange` and `date.isocalendar` are parameters (`numDays`, `firstWeekday`, `isoWeek`).

## Model

| member | source | states |
|---|---|---|
| Pool.ConnectionPool.constructor | database.py:24-36 | a pool of size n starts with n idle connections, none handed out or closed; a size of 0 or less means an unbounded queue, which starts empty |
| Pool.ConnectionPool.CreateConnection | database.py:38-58 | each new connection is a fresh handle, numbered in creation order |
| Pool.ConnectionPool.GetConnection | database.py:60-71 | with an idle connection, the oldest one is handed out and removed from the queue; with none (the 5-second `Empty` case), a new connection is created and handed out; either way the handle was not already out |
| Pool.ConnectionPool.ReleaseConnection | database.py:72-79 | a returned connection goes to the back of the queue unless the queue is full, in which case it is closed; it is no longer out |
| Pool.ConnectionPool.WithConnection | database.py:60-79 | one `with get_connection()` block: the connection used ends up at the back of the queue, and no handle stays out |
| Pool.ConnectionPool.CloseAll | database.py:81-88 | every idle connection is closed and the queue is empty; connections still out are untouched |
| PriceCache.EntryOf | database.py:1169-1170 | a batch row keeps price and company name, is stamped with the write time, and its currency is the one given, or USD when none is given |
| PriceCache.ApplyBatchKeys | database.py:1153-1172 | after a batch upsert the cache holds exactly the old tickers plus the batch's tickers |
| PriceCache.ApplyBatchUntouched | database.py:1153-1172 | a ticker not in the batch keeps its old row |
| PriceCache.ApplyBatchLastWins | database.py:1153-1172 | `INSERT OR REPLACE` is an upsert: for a ticker listed twice in one batch, the last update wins |
| PriceCache.ApplyBatchIdempotent | database.py:1153-1172 | applying the same batch twice at the same time equals applying it once |
| PriceCache.LastIndexOf | database.py:1153-1172 | the position of the last update for a ticker in the batch |
| PriceCache.GetCachedPrice | database.py:1109-1132 | a row is returned exactly when the ticker is cached and its update is younger than `max_age_minutes`, and the row returned is the cached one |
| PriceCache.ReadAfterUpsert | database.py:1109-1151 | right after an upsert, a read returns the new price exactly while the write is younger than the age limit |
| PriceCache.FreshCount | database.py:1250-1253 | the number of rows updated after a cut-off is at most the row count |
| PriceCache.FreshCountMonotone | database.py:1250-1253 | a later cut-off never counts more rows, so the 1-hour count is at most the 24-hour count |
| PriceCache.Oldest | database.py:1254 | `MIN(last_update)`: NULL exactly for an empty cache, otherwise a time some row has and no row precedes |
| PriceCache.Newest | database.py:1255 | `MAX(last_update)`: NULL exactly for an empty cache, otherwise a time some row has and no row exceeds |
| PriceCache.CacheStatistics | database.py:1242-1259 | total = row count, fresh 1h ≤ fresh 24h ≤ total, both counts are the matching fresh counts, and oldest ≤ newest when the cache is not empty |
| PriceCache.AgeMinutes | database.py:1206 | `CAST(... AS INTEGER)` truncates toward zero: the age rounds down for past updates and up for future ones |
| PriceCache.InCurrency | database.py:1209 | `WHERE p.currency = ?`: exactly the positions of the currency, each kept once in the given order |
| PriceCache.ViewOf | database.py:1203-1208 | the LEFT JOIN of one position: the cache row's price, update time, company name and age when the ticker is cached, NULL in all four otherwise |
| PriceCache.PositionsWithCache | database.py:1174-1214 | one row per position of the currency, in the order given (standing for the purchase-date order); the LEFT JOIN gives the cached price, update time, company name and age when the ticker is cached, and NULL in all four otherwise |
| PriceCache.PositionsWithCacheRows | database.py:1174-1214 | every returned row comes from a position of the requested currency, and has a price and an age exactly when its ticker is cached |
| PriceCache.PriceCacheTable.UpdatePriceCache | database.py:1134-1151 | the ticker's row is replaced by the new price stamped with `now`; every other row is unchanged |
| PriceCache.PriceCacheTable.UpdatePriceCacheBatch | database.py:1153-1172 | the new cache is the batch upsert of the old one; an empty batch changes nothing |
| PriceCache.PriceCacheTable.ClearOldCache | database.py:1216-1240 | a row stays exactly when its ticker is a position or on the watch list, or its update is within `max_age_days`; kept rows are unchanged; the count returned is the number of rows deleted |
| Watchlist.LowestTriggered | database.py:708-764 | the lowest set flag among hp1..hp4, or 0 exactly when no flag is set |
| Watchlist.ClearLevel | database.py:710-750 | level k set to NULL and its flag cleared, with every other column unchanged |
| Watchlist.ProcessStepHandlesLowestLevel | database.py:689-764 | the lowest triggered level k is handled: the row is unchanged exactly when no flag is set; if level k+1 is set (non-NULL, non-zero), level k is cleared; otherwise the row is deleted |
| Watchlist.AdvanceClearsOneFlag | database.py:708-750 | advancing clears exactly one flag, so processing a row again ends after at most four steps |
| Watchlist.WithAlerts | database.py:647-673 | each argument that is True sets its flag; no flag is cleared and no level changes |
| Watchlist.WithTriggered | database.py:675-687 | exactly flag `hp{level}_triggered` is set, with nothing else changed |
| Watchlist.FindRow | database.py:694-704 | the first row with this ticker and currency, or none when no row matches |
| Watchlist.WatchlistTable.UpdateWatchlistAlertStatus | database.py:647-673 | the row with that id gets its flags set; with no True argument nothing is written; keys stay unique |
| Watchlist.WatchlistTable.MarkHpTriggered | database.py:675-687 | for level 1..4, the matching row gets that flag; any other level names no column and changes nothing |
| Watchlist.WatchlistTable.ProcessTriggeredHp | database.py:689-764 | a missing row changes nothing; otherwise the found row is left, updated or deleted as the step says, and the result is True exactly on deletion |
| Recurring.Instance | database.py:1093-1097 | the generated expense copies day, category, subcategory, amount and comment from the rule into the requested month |
| Recurring.Generated | database.py:1061-1103 | at most one expense per rule, all in the requested month |
| Recurring.GeneratedFromEligibleRules | database.py:1066-1097 | every generated expense is the instance of a rule that has started, is active, and is within its duration |
| Recurring.GeneratedCoversRules | database.py:1066-1098 | after a run, every eligible rule with a subcategory has its expense in the table |
| Recurring.NullSubcategoryInstances | database.py:1080-1090 | the instances of eligible rules with a NULL subcategory: `subcategory = NULL` never matches, so these are always generated |
| Recurring.GeneratedWhenCovered | database.py:1066-1098 | when every eligible rule with a subcategory is already there, a run generates exactly the NULL-subcategory instances |
| Recurring.SecondRunRegeneratesOnlyNullSubcategories | database.py:1061-1103 | a second run for the same month adds only the NULL-subcategory instances again |
| Recurring.NoNullSubcategoryInstances | database.py:1080-1090 | rules that all have a subcategory yield no NULL-subcategory instances |
| Recurring.SecondRunIsIdempotent | database.py:1061-1103 | when every rule has a subcategory, a second run for the same month generates nothing |
| Recurring.EligibleWindow | database.py:1066-1078 | the tuple comparison `(year, month) < start` is "months passed < 0", and a rule is eligible exactly when it is active, started, and, if limited, fewer months have passed than its duration |
| Recurring.BudgetTables.GenerateRecurringExpensesForMonth | database.py:1061-1103 | the table is extended with exactly the generated expenses, in rule order, and their count is returned |
| Strategies.AppendIfAbsent | database.py:1389-1391 | the level is in the list afterwards; the list is unchanged if the level was present, and otherwise the level is added at the end |
| Strategies.AppendIfAbsentKeepsDistinct | database.py:1376-1398 | marking keeps the opened levels free of duplicates, and marking the same level twice is the same as marking it once |
| Strategies.StrategyTable.MarkLevelAsOpened | database.py:1376-1398 | an unknown strategy changes nothing; an existing strategy's stored list (NULL counts as empty) gets the level appended if absent |
| Settings.GetSetting | database.py:1832-1838 | the stored value when the key exists, the default otherwise |
| Settings.ModuleKey | database.py:1853 | the key is `module_` + name + `_enabled` |
| Settings.ModuleKeyInjective | database.py:1851-1861 | different modules have different keys, so switching one module never affects another |
| Settings.BoolTextRoundTrip | database.py:1851-1861 | the text `set_module_enabled` stores reads back as the same boolean in `is_module_enabled` |
| Settings.Defaults | database.py:1851-1870 | an unset module is enabled, and an unset auth switch is disabled |
| Settings.TrueTextIsCapitalisedTrue | database.py:1851-1855 | `value.lower() == 'true'` holds exactly for `true` with each letter in either case |
| Settings.CaseInsensitiveTrue | database.py:1851-1855 | a module is enabled exactly when its setting is missing or is `true` in any capitalisation |
| Settings.SettingsTable.SetSetting | database.py:1840-1849 | `INSERT OR REPLACE`: the key maps to the new value and nothing else changes |
| Settings.SettingsTable.SetModuleEnabled | database.py:1857-1861 | afterwards the module reads as the value set, and every other module reads as before |
| Settings.SettingsTable.SetAuthEnabled | database.py:1872-1875 | afterwards `is_auth_enabled` returns the value set |
| AuthStore.FailedLogin | database.py:1972-2000 | from the given count, one failure is added; it locks the account for the configured minutes once the count reaches the limit, and otherwise reports the attempts left; unreadable settings give an error and change nothing |
| AuthStore.LockedAccountRejects | database.py:1927-1933 | while the lock has not run out, a login is rejected whatever the password, with the seconds left, and nothing changes |
| AuthStore.CorrectPasswordResets | database.py:1953-1964 | the correct password on an unlocked account succeeds and clears the failure count and the lock |
| AuthStore.SuccessOnlyWithPassword | database.py:1912-1970 | a login succeeds exactly when the password matches and no lock is in force; the password and recovery hashes never change |
| AuthStore.FailureUnderPolicy | database.py:1972-2000 | under readable limits, one failure counts up by one, and it locks for `minutes` exactly when the count reaches `max_attempts` |
| AuthStore.WrongPasswordCounts | database.py:1927-2000 | a wrong password outside a live lock records one failure on top of the stored count, also right after an expired lock was reset; it locks for the configured minutes when that count reaches the limit, and otherwise leaves no lock |
| AuthStore.DefaultMaxAttempts | database.py:1977 | without a setting, the attempt limit is 5 |
| AuthStore.DefaultLockMinutes | database.py:1978 | without a setting, the lock lasts 15 minutes |
| AuthStore.DefaultLockPolicy | database.py:1975-1978 | without settings, the lockout policy is 5 attempts and 15 minutes |
| AuthStore.ExpiredLockRelocksAtOnce | database.py:1934-1967 | the corollary under the defaults: an account that was locked after five failures is locked again by a single wrong password once the lock has run out |
| AuthStore.ExpiredLockThenCorrectPassword | database.py:1934-1964 | the correct password after an expired lock succeeds, with the count and lock cleared |
| AuthStore.AuthTable.CreatePassword | database.py:1885-1910 | the row holds the hashes of the password and key, with no failures and no lock, and auth is switched on |
| AuthStore.AuthTable.VerifyPassword | database.py:1912-1970 | without a row the result is "not set"; otherwise the new row and the result are those of the login function under the stored lockout settings |
| AuthStore.AuthTable.VerifyRecoveryKey | database.py:2002-2020 | true exactly when a row exists and the key matches its recovery hash |
| AuthStore.AuthTable.ChangePassword | database.py:2022-2051 | the row gets the new password hash, a new recovery hash only for a non-empty key, no failures and no lock; without a row nothing changes |
| AuthStore.ChangePasswordThenLogin | database.py:2022-2051 | after a change, the new password logs in; a non-empty new key is the recovery key; without a key the old one still works |
| Auth.KeyCharsFromBase | auth_module.py:32-34 | the key alphabet is the uppercase letters and digits minus O, 0, I and 1 |
| Auth.KeyCharsDistinct | auth_module.py:32-34 | the key alphabet has no repeated character, so every pick is a different character |
| Auth.KeyCharsClasses | auth_module.py:32-34 | every key character is an uppercase letter or a digit 2-9, never O or I |
| Auth.KeyCharsShape | auth_module.py:32-34 | the key alphabet has 32 distinct characters, all from the allowed classes |
| Auth.RecoveryKeySurvivesStrip | auth_module.py:670 | the `.strip()` of the reset dialog leaves a well-formed recovery key unchanged |
| Auth.JoinFourGroups | auth_module.py:36-41 | joining four 4-character groups with `-` gives 19 characters, with character c of group q at 5q+c and dashes at 4, 9 and 14 |
| Auth.KeyPositions | auth_module.py:36-41 | the k-th pick ends up at position k + k/4 of the key |
| Auth.KeyFromGroups | auth_module.py:36-41 | the joined groups have the recovery-key format |
| Auth.GenerateGroup | auth_module.py:37-38 | one group is four characters, the alphabet letters of its four picks |
| Auth.GenerateRecoveryKey | auth_module.py:27-41 | the key has the `XXXX-XXXX-XXXX-XXXX` format, and the k-th pick sits at position k + k/4 |
| Auth.DoubledScore | auth_module.py:52-77 | the score before halving is between 1 and 7 |
| Auth.AnyChar | auth_module.py:59-73 | true exactly when some character of the string is in the class |
| Auth.ValidatePasswordStrength | auth_module.py:44-88 | the score returned is the strength of the password |
| Auth.StrengthRange | auth_module.py:49-88 | the score is 0 exactly for fewer than 8 characters; otherwise it is 1 to 4 |
| Auth.StrongestScore | auth_module.py:52-88 | 4 exactly for 12 or more characters with a lowercase letter, an uppercase letter, a digit and punctuation |
| Auth.StrengthMonotone | auth_module.py:49-88 | adding a character never lowers the score |
| Auth.SetupCheck | auth_module.py:332-353 | the set-up dialog accepts exactly a password of 8 or more characters, equal to its confirmation, with the key confirmed; each error is returned exactly when every earlier check passed and its own check fails |
| Auth.SavePassword | auth_module.py:326-359 | on an error nothing is stored; otherwise both hashes are stored and auth is switched on, and the auto-lock setting also when it is chosen |
| Auth.ResetCheck | auth_module.py:668-690 | the reset dialog's checks in order: recovery key given, password given, 8 or more characters, confirmation equal; each error is returned exactly when every earlier check passed and its own check fails |
| Auth.ResetPassword | auth_module.py:668-706 | it succeeds exactly when the checks pass and the stripped key matches the stored recovery hash; then the row holds the new password and a freshly generated well-formed key, and otherwise nothing changes |
| Auth.ChangeCheck | auth_module.py:815-835 | the change dialog's checks in order: current password given, new password given, 8 or more characters, confirmation equal; each error is returned exactly when every earlier check passed and its own check fails |
| Auth.ChangePasswordDialog | auth_module.py:815-851 | failed checks change nothing; the current password is then checked with the lockout login (a failure is recorded as such); on success the new password is stored, with a new well-formed key when requested |
| Budget.NextMonthOf | budget_module.py:1191-1197 | the next month is one month later and is a valid month (December rolls over to January) |
| Budget.PrevMonthOf | budget_module.py:1172-1178 | the previous month is one month earlier and is a valid month (January rolls back to December) |
| Budget.PrevUndoesNext | budget_module.py:1172-1208 | "previous" and "next" undo each other |
| Budget.MonthsPassedCountsSteps | database.py:1076 | one "next month" click adds exactly one to the months passed of any recurring rule |
| Budget.DayPlacement | budget_module.py:564-651 | every day of the month lands in exactly one cell of the grid, in row (d-1+first)/7 and column (d-1+first)%7+1 |
| Budget.NoEmptyRow | budget_module.py:564 | the week count is at least one, and the last day is in the last row, so no row is empty |
| Budget.FirstDayOfRowIsFirst | budget_module.py:590-599 | the day used for a row's week number is a day of the month in that row, and no earlier day is in that row |
| Budget.WeekDateIsFirstDay | budget_module.py:590-599 | the `week_date` branches of `setup_calendar` pick the first day shown in the row |
| Budget.DayText | budget_module.py:620-625 | a day cell's text starts with the day's number |
| Budget.ClickRecoversDay | budget_module.py:662-677 | clicking a day cell, with or without the red dot, selects the day it shows |
| Budget.ClickOutsideDays | budget_module.py:664-671 | clicks on the week-number column and on empty cells select nothing |
| Budget.AddIncomeStep | budget_module.py:998-1005 | adding one income keeps the per-day maps equal to the grouping of the rows seen so far |
| Budget.AddExpenseStep | budget_module.py:1007-1014 | adding one expense keeps the per-day maps equal to the grouping of the rows seen so far |
| Budget.AddToCategory | budget_module.py:858-863 | adding one income keeps `income_by_category` equal to the grouping by category of the rows seen so far |
| Budget.Present | budget_module.py:866-867 | the categories that have entries, in list order: exactly those of the list that are keys |
| Budget.IncomeRowsSpec | budget_module.py:866-886 | the table's category column is exactly the present categories, in category order; each row's total is the sum of that category's amounts |
| Budget.PresentNoDuplicates | budget_module.py:866-867 | keeping only the present categories of a list without repeats gives a list without repeats |
| Budget.IncomeCategoriesNoDuplicates | budget_module.py:20-26 | `INCOME_CATEGORIES` names each category once |
| Budget.IncomeTableOneRowPerCategory | budget_module.py:853-909 | the income table has one row per income category with entries, in `INCOME_CATEGORIES` order, and never the same category twice |
| Budget.SaveRecurringForm | budget_module.py:313-334 | the saved record is indefinite exactly when the first duration option is chosen, carries a month count exactly then, and uses a 1-based start month and the edited id |
| Budget.SavedRuleSchedule | budget_module.py:313-334 | a rule saved for n months is generated in exactly the n months from its start; an indefinite one in every month from its start |
| Budget.BudgetView.constructor | budget_module.py:339-358 | the widget shows the current month, with nothing selected and no per-day data |
| Budget.BudgetView.PrevMonth | budget_module.py:1172-1189 | the widget shows the previous month and the selection is cleared |
| Budget.BudgetView.NextMonth | budget_module.py:1191-1208 | the widget shows the next month and the selection is cleared |
| Budget.BudgetView.GoToToday | budget_module.py:1210-1225 | the widget shows the current month and the selection is cleared |
| Budget.BudgetView.OnMonthChanged | budget_module.py:1227-1240 | the month is the chosen combo index plus one and the selection is cleared |
| Budget.BudgetView.OnYearChanged | budget_module.py:1242-1255 | the year is the one chosen and the selection is cleared |
| Budget.BudgetView.WeekRow | budget_module.py:612-651 | one calendar row: the week cell, then seven cells, each one blank or the next day of the month |
| Budget.BudgetView.SetupCalendar | budget_module.py:557-651 | the grid has one row per week, of eight cells each; the first is the ISO week of the row's first day, and every other cell is either that calendar position's day (with a red dot exactly when the day has expenses) or blank |
| Budget.BudgetView.OnCalendarDayClicked | budget_module.py:662-713 | a click on a day cell selects that day and cell; any other click leaves the selection unchanged |
| Budget.BudgetView.UpdateCalendarWithData | budget_module.py:991-1021 | the per-day maps become the grouping of the incomes and expenses, and the grid is redrawn from them: each row has its ISO week number in column 0 and its seven day cells after it |
| Budget.BudgetView.LoadIncomeData | budget_module.py:853-909 | the income table becomes the per-category rows of the given incomes |
| Budget.DailyDataMatchesLists | budget_module.py:991-1016 | after grouping, a day's totals are the sums of its lists, a day has the red dot exactly when it has an expense, and a day without rows has no entry |
| Strings.StripSpec | auth_module.py:670 | `.strip()` leaves no space at either end and does not change a string that has no space at its ends |
| Strings.ParseIntOfNatToString | budget_module.py:677 | `int(str(d))` is `d` |

## Left out

- The schema: table creation, migrations, indexes, `optimize_database` and `get_database_stats`. These are DDL and maintenance statements with nothing to prove.
- The CRUD pass-throughs (the plain INSERT, UPDATE, DELETE and SELECT wrappers for positions, strategies, budget rows and media). Each one is a single statement with no logic.
- `get_recurring_expenses`: its `WHERE active = 1 ORDER BY category, subcategory` is not modelled. The rules are taken in the order given, and `active` is part of `Eligible`.
- Connection PRAGMAs, `check_same_thread` and the SQLite connection objects. A connection is a number.
- Threads and the blocking `Queue`: the model is sequential. Waiting 5 seconds on an empty queue is modelled as "the queue is empty".
- bcrypt: salts, the cost factor, and exceptions from `checkpw` are left out. A hash is `Digest(secret)`, and `Checks` compares against it.
- AuthStore.Checks: accepts exactly the secret the hash was made from. bcrypt uses only the first 72 bytes of `secret.encode('utf-8')`. Older releases accept any secret that shares those bytes, and newer ones raise for a longer secret. The model treats both cases as a wrong password, because it has no byte encoding of strings.
- Datetime strings and `julianday`: times are whole seconds and `now` is a parameter. Minutes are 60 seconds, hours 3600 and days 86400.
- Floating point: amounts are `real`, so there is no rounding. The `{total:.2f}` formatting and the lock message's minute rounding are left out; `Locked` carries the seconds left.
- `secrets.choice` is the parameter `picks`. The model does not capture that the picks are random.
- `calendar.monthrange`, `date.isocalendar` and `datetime.now()` are parameters (`numDays`, `firstWeekday`, `isoWeek`, `nowYear`/`nowMonth`).
- The PyQt widgets are left out: colours, fonts, the today and weekend highlighting, message boxes and buttons. A calendar cell is its text.
- `media_module.py` and the other GUI modules are not part of this model.
- `load_budget_data`, `load_expense_data`, `update_day_transactions_view`, `update_controls` and `update_calendar_title` are left out. They only read tables into widgets.
- Month navigation does not redraw. `PrevMonth`, `NextMonth` and `GoToToday` do not re-run the data load, and `OnMonthChanged`/`OnYearChanged` do not redraw either.
- `update_calendar_with_data` ends with a call to `update_day_transactions_view` when a day is selected. That call is left out with the rest of that view.
- `disable_auth` and `get_failed_attempts` are left out. They are single statements over the same row.
- `verify_password` can fail a second time, when it re-reads `password_hash` after the row has vanished. Modelling that needs a concurrent writer, so it is left out.
- AuthStore.AuthTable.VerifyPassword: the lockout settings are read once, at the start of the call. The source reads them only after a wrong password, but nothing changes the settings during the call, so the value is the same.
- `locked_until` is modelled as `Option`: NULL or a time. The model has no other value, such as an empty string, for `if locked_until:` to test.
- Watchlist.WatchlistTable.MarkHpTriggered: the SQL error for a level outside 1..4 is modelled as `ok == false` with nothing changed. It is not an exception.
- Auth.ValidatePasswordStrength: `islower`, `isupper` and `isdigit` are modelled for ASCII only. The source also accepts other Unicode letters and digits.
- Strings.Strip: only ASCII whitespace is stripped. The source's `str.strip` also removes Unicode whitespace.
- Strings.ParseInt: accepts an optional sign and ASCII digits only. The source's `int()` also accepts underscores and Unicode digits.
- Strings.Lower: folds ASCII letters only. The source's `str.lower` folds all of Unicode.
- PriceCache.PositionsWithCache: the order of the positions passed in stands for `ORDER BY p.purchase_date DESC`. Purchase dates and the sort are not modelled.
- PriceCache.EntryOf: a batch dict whose `currency` key holds `None` is stored as NULL by `INSERT OR REPLACE`. The model cannot represent that: a missing currency and a `None` currency both become USD.
