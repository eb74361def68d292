# SpendWise expense tracker: a Dafny model of its core logic

This project models the logic of a small single-user expense tracker. The logic sits inside a local storage
service and a handful of pages:

- the **rule store** (`dataService.matchRule` / `addRule`): keyword rules that assign a category to a merchant.
  A rule resolves by case-insensitive *substring* match, first rule in stored order wins. It is learned by
  case-insensitive *exact* keyword upsert.
- the **expense form**: its defaults, and the merchant-blur decision (rules first, then an external category
  suggestion). Its submit validation and rule-learning policy are modelled as well.
- the **dashboard**: summary statistics, the seven-day spending series, the category pie, adding an expense,
  and the five most recent expenses.
- the **analytics page**: the per-category breakdown sorted by amount, and the twelve month buckets.
- the **expenses page**: search and category filtering sorted by date, saving an edited or new expense,
  deleting, and the CSV export.
- the **settings page**: deleting a rule, and adding a custom category.

Everything is a pure function over immutable values.

- Records are datatypes (`Types`). Collections are sequences.
- Amounts are `real`, with no rounding.
- Dates stay strings, as the program stores them. `Calendar` reads them as `YYYY-MM-DD` calendar dates.
- The outside world comes in as parameters:
  - the storage getters become sequence arguments;
  - the category-suggestion service's answer is an `Option<string>`;
  - the clock (`Date.now`, today's date) is a number or a `Calendar.Date`;
  - random ids are strings;
  - the random colour draw is a number;
  - the prompt answer is an `Option<string>`.

JavaScript's truthiness tests are written out:

- an empty string is as absent as `null`;
- a falsy amount is `0` or `NaN`, and `NaN` (an empty amount field) is `None`;
- `|| 'Other'` and `|| 'Unknown'` also replace an empty category name.

Generic pieces support the page modules:

- `Seqs`: `Array.prototype.filter`, `findIndex`, and the stable descending sort
  (`sort((a, b) => key(b) - key(a))`) as an insertion sort.
- `Text`: ASCII `toLowerCase`, `includes`, `join` and its inverse `Split`.
- `Numerals`: `Number.prototype.toString(base)` and `padStart`.
- `Calendar`: days and ISO date strings.

Three behaviours of the code are easy to expect otherwise, and the model states them as the code has them:

- **Top-category ties.** Ties do not go to the category that comes first in the category list. The code sorts
  `Object.entries` of an object filled in expense order, so ties go to the category whose first expense comes
  first in the expense list (`Dashboard.TopCategoryId`, `Dashboard.TopCategoryTieFollowsListOrder`). With
  ties, the top category therefore changes when the expenses are reordered.
- **Suggestion answers.** The form adopts any non-empty answer of the category-suggestion service, including one
  that names no known category (`ExpenseForm.OracleAnswerUnchecked`).
- **Learning an exact merchant.** Learning a rule does not override an older rule that already matches. After a
  `cafe` → food rule, learning "Blue Cafe Co" → shopping appends the new rule after the `cafe` rule. The first
  match wins, so "Blue Cafe Co" still resolves to food (`DataService.BlueCafeStaysWithFirstRule`).

## Model

| member | source | states |
|---|---|---|
| Types.FindCategory | pages/Dashboard.tsx:31 | `categories.find(c => c.id === id)`: some category exactly when one has that id, and the one found has that id and is in the list |
| Types.FindCategoryFirst | pages/Dashboard.tsx:31 | the category found is the first one in list order with that id |
| Types.NameOr | pages/Expenses.tsx:71 | `find(...)?.name \|\| fallback`: the non-empty name of the first category with that id; the fallback exactly when there is no such category or its name is empty |
| Types.DefaultCategoriesDistinct | constants.tsx:18-30 | the built-in list has eleven categories with pairwise different ids, the last being `cat-other` |
| DataService.MatchRule | services/dataService.ts:54-59 | no answer exactly when no rule's lower-cased keyword occurs in the lower-cased merchant; otherwise the category of the first rule, in stored order, that does |
| DataService.MatchRuleFirst | services/dataService.ts:56-58 | whichever rule fires first determines the answer |
| DataService.MatchRuleIgnoresLaterRules | services/dataService.ts:56 | once some rule fires, rules appended after it never change the answer |
| DataService.EmptyKeywordShadows | services/dataService.ts:56 | a rule with an empty keyword fires for every merchant, so no rule after it is ever consulted |
| DataService.AddRule | services/dataService.ts:61-70 | keyword known ignoring case: same length, only the first rule with that keyword takes the new category, all others unchanged; keyword new: exactly one rule appended with the keyword verbatim and the fresh id, prefix unchanged |
| DataService.AddRuleLearns | services/dataService.ts:61-70 | afterwards some rule has that keyword (ignoring case) and that category |
| DataService.AddRuleKeepsIdsAndKeywords | services/dataService.ts:63-66 | the existing rules keep their positions, ids and keywords |
| DataService.AddRuleIdempotent | services/dataService.ts:63-69 | learning the same keyword and category twice gives the list learning it once gives, whatever the second generated id |
| DataService.AddRulePreservesUniqueKeywords | services/dataService.ts:63-69 | if no two rules had keywords equal ignoring case, none do afterwards |
| DataService.LearnedKeywordResolvesExtensions | services/dataService.ts:56-69 | learning a keyword makes every merchant that extends it resolve to the learned category, when no earlier rule fired for that merchant |
| DataService.LearnedRuleShadowed | services/dataService.ts:56-69 | learning a new exact merchant name does not change how that merchant resolves if an older rule already fired for it |
| DataService.StarbucksReserveResolves | services/dataService.ts:56-69 | learning "Starbucks" → food on empty rules makes "Starbucks Reserve" resolve to food |
| DataService.BlueCafeStaysWithFirstRule | services/dataService.ts:56-69 | with a `cafe` → food rule, learning "Blue Cafe Co" → shopping appends a rule, yet "Blue Cafe Co" still resolves to food |
| ExpenseForm.NewDraft | components/ExpenseForm.tsx:17-26 | a new form: amount 0, empty merchant and notes, category `cat-other`, debit card, and a date that reads back as today |
| ExpenseForm.EditDraft | components/ExpenseForm.tsx:17-18 | an edit form holds every field of the expense: id, amount, date, category, merchant, payment method, notes, receipt and creation time |
| ExpenseForm.FromDraft | pages/Dashboard.tsx:70-74 | `{ ...draft, id, createdAt }` is the record whose edit form is the draft with that id and time |
| ExpenseForm.OnMerchantBlur | components/ExpenseForm.tsx:29-46 | blur changes at most the category. It does nothing for an empty merchant, or an unchanged one while editing. A firing rule sets the category without asking the suggestion service. The service is asked exactly when no rule fires; a non-empty answer is adopted, an empty or missing one changes nothing |
| ExpenseForm.BlurCategorySources | components/ExpenseForm.tsx:33-44 | after blur the category is the old one, some rule's category, or the service's answer |
| ExpenseForm.OracleAnswerUnchecked | components/ExpenseForm.tsx:41-44 | an answer naming no known category is still adopted |
| ExpenseForm.OnSubmit | components/ExpenseForm.tsx:59-72 | rejected exactly when the amount is 0 or missing or the merchant is empty; a saved form is passed on unchanged; rules are learned by `addRule` exactly under the learning policy |
| ExpenseForm.NegativeAmountAccepted | components/ExpenseForm.tsx:61 | a negative amount with a merchant passes validation |
| ExpenseForm.EditLearnsIffCategoryChanged | components/ExpenseForm.tsx:64-65 | while editing, the rules change only if the category changed; if it did, a rule for the merchant with the new category exists and keywords stay unique |
| ExpenseForm.CreateLearnsWhenCategorySet | components/ExpenseForm.tsx:66-68 | while creating, an accepted submit with a category leaves a rule for the merchant with that category; without a category the rules stay |
| ExpenseForm.CreateThenBlurUsesLearnedRule | components/ExpenseForm.tsx:29-68 | after creating an expense for a merchant no rule covered, a new form for that merchant takes the saved category on blur without asking the service |
| Spending.Total | pages/Dashboard.tsx:21 | the `reduce` sum: the amount itself for a single expense; with TotalConcat and TotalPermutation below, the sum of the amounts in any grouping and order |
| Spending.TotalNonNegative | pages/Dashboard.tsx:21 | amounts none of which is negative have a sum that is not negative |
| Spending.CategoryTotal | pages/Dashboard.tsx:63 | 0 when no expense has the category; the whole total when every expense has it |
| Spending.DateTotal | pages/Dashboard.tsx:49-51 | 0 when no expense has the date; the whole total when every expense has it |
| Spending.TotalConcat | pages/Dashboard.tsx:21 | the sum of amounts over two lists joined is the sum of their sums |
| Spending.TotalPermutation | pages/Dashboard.tsx:21 | lists with the same elements in any order have the same sum |
| Spending.TotalWhereAppend | pages/Dashboard.tsx:49-51 | appending an expense raises a filtered sum by its amount exactly when the filter keeps it |
| Spending.TotalWhereNone | pages/Dashboard.tsx:49-51 | a filter that keeps nothing sums to 0 |
| Spending.CategorySlices | pages/Dashboard.tsx:61-65 | one entry per category, in category order: its name, colour, and the sum of its expenses |
| Spending.PositiveSlices | pages/Dashboard.tsx:60-67 | the entries with a positive sum, in category order: an entry is shown exactly when its sum is positive, and as many times as it occurs among all entries |
| Spending.UnknownCategoryAddsNothing | pages/Dashboard.tsx:60-67 | an expense whose category id is not in the list changes no entry |
| Spending.MonthIndex | pages/Analytics.tsx:26 | `getMonth()` of a readable date is its month less one, in 0..11; an unreadable date has no month |
| Spending.MonthTotal | pages/Analytics.tsx:26 | a bucket index outside 0..11 sums to 0; a list whose every date falls in that month sums to its total |
| Dashboard.CategoryKeys | pages/Dashboard.tsx:24-27 | the keys of `catCounts`: each category id used by some expense, once, in first-appearance order |
| Dashboard.CategoryKeysPrefix | pages/Dashboard.tsx:24-27 | the keys of a prefix of the expenses are a prefix of the keys |
| Dashboard.CategoryCounts | pages/Dashboard.tsx:24-30 | `Object.entries(catCounts)`: each key with the sum of its expenses' amounts |
| Dashboard.TopCategoryId | pages/Dashboard.tsx:24-30 | an id some expense uses, whose sum is maximal; among tied ids, the one whose first expense comes first |
| Dashboard.MaxAmount | pages/Dashboard.tsx:22 | at least every amount, and equal to one of them |
| Dashboard.ActiveDays | pages/Dashboard.tsx:33 | exactly the dates some expense carries; at least one when there are expenses |
| Dashboard.Stats | pages/Dashboard.tsx:18-37 | empty list: 0, 0, `N/A`, 0. Otherwise: total is the sum of amounts; average is total over the number of distinct dates, which is never 0; biggest is `MaxAmount`; top category is the top id's name, or `Other` |
| Dashboard.PerDay | pages/Dashboard.tsx:34 | `total / Math.max(days, 1)` |
| Dashboard.StatsTotalsOrderIndependent | pages/Dashboard.tsx:18-37 | total, average and biggest transaction do not depend on the order of the expenses |
| Dashboard.TopCategoryTieFollowsListOrder | pages/Dashboard.tsx:24-30 | two expenses of equal amount in different categories: the top category is whichever comes first, so swapping them changes it |
| Dashboard.Last7Days | pages/Dashboard.tsx:42-46 | seven valid days, oldest first, each the day before the next, the last being today |
| Dashboard.DistinctWindowDays | pages/Dashboard.tsx:42-46 | the seven days are pairwise different |
| Dashboard.DailySeries | pages/Dashboard.tsx:39-58 | seven entries, one per window day in order, each the sum of the expenses dated with that day's ISO string |
| Dashboard.QuietDayIsZero | pages/Dashboard.tsx:48-52 | a day no expense carries shows 0 |
| Dashboard.NewExpenseRaisesOneBar | pages/Dashboard.tsx:48-52 | adding an expense dated on a window day raises that day by its amount and leaves the other six |
| Dashboard.PieData | pages/Dashboard.tsx:60-67 | only positive entries, in category order, and every category entry with a positive sum, as often as it occurs |
| Dashboard.AddExpense | pages/Dashboard.tsx:69-79 | one record appended: the form's fields as they are, with the fresh id and the clock's time; existing records unchanged; the total rises by that amount |
| Dashboard.RecentExpenses | pages/Dashboard.tsx:184 | at most five expenses, newest creation time first, taken from the list; none left out is newer than one shown |
| Analytics.CategoryBreakdown | pages/Analytics.tsx:15-21 | the positive category entries, each a category's sum, reordered by amount, largest first |
| Analytics.BreakdownTiesKeepCategoryOrder | pages/Analytics.tsx:20 | categories with equal amounts keep category-list order (the sort is stable) |
| Analytics.BreakdownCoversSpending | pages/Analytics.tsx:16-20 | every category with a positive sum appears with that sum |
| Analytics.MonthlyTrend | pages/Analytics.tsx:23-29 | twelve buckets `Jan`..`Dec`, each the sum of the expenses dated in that month of any year |
| Analytics.MonthTotalCons | pages/Analytics.tsx:26 | one expense adds its amount to the bucket of its month and to no other |
| Analytics.MonthlyTrendSumsToTotal | pages/Analytics.tsx:25-28 | when every date reads as a date, the buckets add up to the total spend |
| Analytics.MonthsFoldYears | pages/Analytics.tsx:26 | January 2023 and January 2024 land in the same bucket |
| ExpensesPage.DateKey | pages/Expenses.tsx:36 | the sort key of a date: -1 exactly for an unreadable date, and at least 0 for every readable one, so unreadable dates sort below all others |
| ExpensesPage.DateKeyOrder | pages/Expenses.tsx:36 | on readable dates, one key is below another exactly when its day is earlier, and keys are equal exactly when the days are |
| ExpensesPage.MatchesSearch | pages/Expenses.tsx:31-32 | matches exactly when the lower-cased search text occurs at some position of the lower-cased merchant or notes; so an empty search matches every expense, and a literal occurrence always matches |
| ExpensesPage.MatchesCategory | pages/Expenses.tsx:33 | `all` matches every expense; any other value matches exactly the expenses with that category id |
| ExpensesPage.FilteredExpenses | pages/Expenses.tsx:28-37 | the expenses matching the search and category, each as often as stored, sorted latest date first |
| ExpensesPage.FilteredMembership | pages/Expenses.tsx:30-35 | an expense is listed exactly when stored, matching the search in merchant or notes, and matching the category filter |
| ExpensesPage.FilteredNewestFirst | pages/Expenses.tsx:36 | of two listed expenses with readable dates, the earlier-listed one is not on an earlier day |
| ExpensesPage.FilteredSameDayKeepsOrder | pages/Expenses.tsx:36 | expenses on the same day keep their stored order |
| ExpensesPage.NoFilterListsEverything | pages/Expenses.tsx:31-33 | an empty search with `all` lists every stored expense |
| ExpensesPage.Merge | pages/Expenses.tsx:41 | `{ ...e, ...exp }`: the form's amount (a number, as the form only submits one), date, category, merchant and payment method win; id, notes, receipt and creation time win when the form holds them and otherwise keep the stored value |
| ExpensesPage.MergeUnchanged | pages/Expenses.tsx:41 | saving an unchanged edit form returns the expense itself |
| ExpensesPage.SaveEdited | pages/Expenses.tsx:40-43 | same length; each record with the edited id is merged with the form, every other record unchanged |
| ExpensesPage.SaveEditedUnchanged | pages/Expenses.tsx:40-43 | with distinct ids, re-saving an expense's own form leaves the list as it was |
| ExpensesPage.Save | pages/Expenses.tsx:39-56 | editing merges in place; creating appends exactly one record built from the form, with the fresh id and time |
| ExpensesPage.DeleteExpense | pages/Expenses.tsx:58-64 | no record with that id is left; every other record is kept as often as stored, in order |
| ExpensesPage.DeleteUndoesAdd | pages/Expenses.tsx:44-60 | deleting a newly added expense by its fresh id restores the list |
| ExpensesPage.CsvFields | pages/Expenses.tsx:68-75 | six fields in header order: date, merchant, the category's name (`Unknown` when no category has the id or its name is empty), amount text, payment method label, notes or empty |
| ExpensesPage.CsvLines | pages/Expenses.tsx:68-78 | one line per listed expense, in list order, its fields joined with commas |
| ExpensesPage.CsvRows | pages/Expenses.tsx:77-78 | the header line first, then the expense lines |
| ExpensesPage.CsvText | pages/Expenses.tsx:77-78 | the text begins with the header line, and is exactly the header line when nothing is listed |
| ExpensesPage.CsvReadsBack | pages/Expenses.tsx:66-78 | with no comma or newline in any field, splitting the text at newlines gives the header and one line per expense, and each splits at commas into its fields |
| ExpensesPage.CommaInMerchantShiftsColumns | pages/Expenses.tsx:68-78 | fields are not escaped: a merchant `Smith, Jones` makes its line split into seven fields |
| SettingsPage.ColorAsWritten | pages/SettingsPage.tsx:14 | the colour as the page builds it: `#` and 1 to 6 hex digits denoting the draw, with no leading zero and no more digits than the draw needs (a draw below 16^k gets at most k digits) |
| SettingsPage.ColorAsWrittenShort | pages/SettingsPage.tsx:14 | the draw 2748 gives `#abc`, a three-digit colour |
| SettingsPage.CategoryColor | pages/SettingsPage.tsx:14 | the intended colour: `#` and exactly six hex digits denoting the draw |
| SettingsPage.CategoryColorInjective | pages/SettingsPage.tsx:14 | different draws give different colours |
| SettingsPage.CustomCategoryId | pages/SettingsPage.tsx:16 | `cat-` followed by decimal digits that read back as the clock value |
| SettingsPage.AddCategory | pages/SettingsPage.tsx:11-25 | a missing or empty answer changes nothing; otherwise exactly one category is appended with that name, the clock's id, the unpadded colour the page writes, `MoreHorizontal`, custom, existing ones unchanged |
| SettingsPage.AddCategoryShortColor | pages/SettingsPage.tsx:14 | the page gives a category added with the draw 2748 the three-digit colour `#abc` |
| SettingsPage.AddCategoryFixed | pages/SettingsPage.tsx:11-25 | the same operation with the colour zero-padded to six hex digits |
| SettingsPage.AddCategoryFixedOnlyColor | pages/SettingsPage.tsx:14 | the corrected operation differs from the page's only in the colour, and every colour it adds has seven characters |
| SettingsPage.CustomIdsDifferAcrossTimes | pages/SettingsPage.tsx:16 | categories added at different milliseconds get different ids |
| SettingsPage.CustomIdNotBuiltIn | pages/SettingsPage.tsx:16 | a custom id never equals a built-in category's id |
| SettingsPage.AddToDefaultsKeepsIdsDistinct | pages/SettingsPage.tsx:11-25 | adding to the built-in list keeps all ids distinct |
| SettingsPage.SameMillisecondSharesId | pages/SettingsPage.tsx:16 | uniqueness is not checked: two adds in the same millisecond produce two categories with one id |
| SettingsPage.DeleteRule | pages/SettingsPage.tsx:27-31 | no rule with that id is left; every other rule is kept as often as stored, in order |
| SettingsPage.DeleteUndoesLearning | pages/SettingsPage.tsx:27-31 | deleting a rule just learned for a new keyword, by its fresh id, restores the rules |
| SettingsPage.DeleteRuleKeepsUniqueKeywords | pages/SettingsPage.tsx:27-31 | deleting keeps keywords unique ignoring case |
| SettingsPage.DeleteRuleSuggestsOnlyStored | pages/SettingsPage.tsx:27-31 | whatever the remaining rules suggest comes from a stored rule that was not deleted |
| Seqs.Filter | pages/Expenses.tsx:60 | `filter`: an in-order subsequence of kept elements, each kept element as often as in the input |
| Seqs.FilterKeepsAll | pages/Expenses.tsx:60 | a filter that keeps everything returns the list |
| Seqs.FilterKeepsPairwise | pages/SettingsPage.tsx:28 | a relation between every earlier and later element survives filtering |
| Seqs.FindIndex | services/dataService.ts:63 | `findIndex`: the first index whose element passes, or none when none does |
| Seqs.SortDesc | pages/Analytics.tsx:20 | `sort((a, b) => key(b) - key(a))`: same elements, keys non-increasing |
| Seqs.SortDescStable | pages/Analytics.tsx:20 | the elements with any one key keep their relative order |
| Text.ToLower | services/dataService.ts:56 | ASCII `toLowerCase`: same length, each letter lowered |
| Text.ContainsIff | services/dataService.ts:56 | `includes`: true exactly when the text occurs at some position |
| Text.Join | pages/Expenses.tsx:78 | `join`: the empty string for no parts, the part itself for one, and always beginning with the first part |
| Text.ContainsLower | pages/Expenses.tsx:31 | lowering both strings keeps every occurrence, so a case-insensitive `includes` finds every literal one |
| Text.SplitJoin | pages/Expenses.tsx:78 | splitting a `join` at its separator gives the parts back when no part holds it |
| Text.SplitSeesExtraField | pages/Expenses.tsx:78 | a part holding the separator comes back as two parts |
| Numerals.NatToString | pages/SettingsPage.tsx:14-16 | `toString(base)`: at least one digit, all digits of the base, and no leading zero for a positive number |
| Numerals.ParseNatToString | pages/SettingsPage.tsx:14-16 | reading the digits back gives the number |
| Numerals.NatToStringInjective | pages/SettingsPage.tsx:16 | different numbers have different digit strings |
| Numerals.NatToStringLength | pages/SettingsPage.tsx:14 | a number below `base^k` has at most `k` digits |
| Numerals.PadZeros | pages/SettingsPage.tsx:14 | `padStart(width, '0')`: the text right-aligned in zeros to the width |
| Numerals.PadZerosParse | pages/SettingsPage.tsx:14 | padding with zeros does not change the number the digits denote |
| Calendar.PrevDay | pages/Dashboard.tsx:44 | `setDate(getDate() - 1)`: a valid day strictly before, at most one year back |
| Calendar.NextPrevRoundTrip | pages/Dashboard.tsx:44 | the day after the day before is the day itself, and the other way round |
| Calendar.PrevDayAdjacent | pages/Dashboard.tsx:44 | no valid day lies strictly between a day and the day before |
| Calendar.DaysBefore | pages/Dashboard.tsx:42-45 | `n` days back: a valid day, strictly before when `n > 0` |
| Calendar.DayKeyOrder | pages/Expenses.tsx:36 | `getTime()` order: the key orders days as the calendar does, and equal keys mean equal days |
| Calendar.FormatIso | pages/Dashboard.tsx:45 | `toISOString().split('T')[0]`: ten characters `YYYY-MM-DD` |
| Calendar.ParseIso | pages/Analytics.tsx:26 | `new Date(s)` on a date string: only valid calendar dates come back |
| Calendar.ParseFormatIso | pages/Dashboard.tsx:45-50 | a formatted day reads back as that day |
| Calendar.FormatIsoInjective | pages/Dashboard.tsx:48-50 | different days format to different strings |

## Left out

- Storage (`localStorage`, JSON) and the storage getters: the collections are parameters, and each page's
  `save…` call is the value the model returns.
- The category-suggestion network call: its answer is a parameter. The stale-response race on blur is
  asynchronous interleaving and is not modelled.
- Floating point: amounts are `real`. Rounding, `toFixed`, `toLocaleString` and `parseFloat` are not modelled.
  The CSV amount text is a parameter `amountText` standing for `Number.prototype.toString`.
- Time zones: `toISOString` is UTC and `getMonth` is local time. The model reads every date string as the
  calendar date it names.
- Weekday labels of the seven-day chart (`toLocaleDateString`) are display formatting. The series carries dates.
- Dashboard.DailySeries: requires today's year in 1..9999, the years an ISO date string of this form can hold.
- ExpensesPage.DateKey: an unreadable date's `getTime()` is `NaN`, and the sort's comparator then returns `NaN`.
  The model places such dates last; the order the browser actually produces for them is not modelled.
- Unicode: `toLowerCase` is modelled on ASCII letters only.
- Object key order: `Object.entries` lists integer-like keys first. The model assumes category ids are not
  integer-like, as every built-in one is not.
- The dashboard's recent list sorts the expense state array in place (`expenses.sort`). The model returns the
  sorted copy, and the other views keep the stored order. `Dashboard.StatsTotalsOrderIndependent` shows that
  total, average and biggest do not depend on that order. `Dashboard.TopCategoryTieFollowsListOrder` shows
  that a tied top category can.
- The pie legend's first three entries (`categoryPieData.slice(0, 3)`) and the remaining rendering, routing,
  login and summary-card formatting are display code.
- `window.confirm` before deleting and `window.prompt` for a category name: the confirmed deletion and the
  answer are the inputs.
- The CSV data-URI prefix, `encodeURI` and the download link are browser plumbing. `ExpensesPage.CsvRows` and
  `Join` give the text.
- The receipt upload (`FileReader`): the image is an opaque optional string.
- The browser's own form validation: the amount, date and merchant inputs carry `required` (and the amount
  `step="0.01"`), so the browser refuses to submit an empty date or merchant, or an amount off the cent grid,
  before `handleSubmit` runs. `ExpenseForm.OnSubmit` models the handler alone; its "rejected exactly when"
  covers only the handler's own checks, and an empty date that it saves never reaches it in a browser.

## Findings

| source | as written | input that shows it | evidently intended | confidence | as-written member | corrected member |
|---|---|---|---|---|---|---|
| pages/SettingsPage.tsx:14 | the colour is `#` plus `toString(16)` of the draw, with no zero padding | a draw of 2748 gives `#abc`; CSS reads that as `#aabbcc`, not `#000abc`, and draws below 16 give an invalid two-character colour | `#` followed by exactly six hex digits (`padStart(6, '0')`) | not executed; high | SettingsPage.AddCategory (SettingsPage.ColorAsWritten, SettingsPage.ColorAsWrittenShort, SettingsPage.AddCategoryShortColor) | SettingsPage.AddCategoryFixed (SettingsPage.CategoryColor, SettingsPage.CategoryColorInjective, SettingsPage.AddCategoryFixedOnlyColor) |
