# Asistente financiero: the interpreter and the expense pipeline, in Dafny

This project models the core of a personal-finance web application. Users
type free-text messages in Spanish ("Gasté 2000 en combustible", "Dame el
reporte del mes"). An interpreter (`parseMessage`) turns each message into a
structured request: an expense, a report, an export, a query, a preference
change, help, or "not understood". Expenses then flow into a list that the
application adds to, updates and deletes from. That list is filtered and
sorted for display, summarised on a dashboard and serialised as CSV.

Modules, following the source files:

- `Types`, `Categories`: the records (`Expense`, `Category`, `ParsedMessage`
  with one constructor per `tipo`) and the fixed category table with its two
  lookups.
- `AmountScanner`: hand-written scanners for the two number regular
  expressions of the interpreter. They cover the greedy match, the
  case-insensitive unit words and the global strip.
- `MessageParser`: the trigger cascade, the amount, the category loop as
  written, the description cleaning and the fallback.
- `ParserExamples`: the interpreter on the help page's sample messages and on
  the scanner's edge cases.
- `ExpenseInput`: the submit handler. It holds the blank guard, the
  conversion of a parsed expense into a record with defaults, and the reply.
- `App`: the list handlers (add, save by id, delete with confirmation) and
  the tab reaction to a parsed message.
- `ExpensesList`: the filter, the comparator-driven sort and the shown total.
- `Dashboard`: the month filters and totals, the month-over-month change,
  the per-category chart and the top five.
- `ExportUtils`: the CSV text.
- `Optional`, `Seqs`, `Strings`, `Dates`: supporting definitions.
  - `Strings` covers lower-casing of ASCII and the Spanish accented capitals,
    white-space trim, `includes`, `join` and `split`.
  - `Dates` covers the `YYYY-MM-DD` text of a date.

The clock is a parameter. `today` is the date `new Date()` gives. The id
`Date.now().toString()` is a parameter `id`. The current month and year are
parameters of the dashboard.

Amounts are exact reals.

The model follows the code where the code does something other than what
its keyword table suggests. The category loop walks the values of the
keyword object, which are category names. Each name is a string, so its
first key is `"0"` and its first value is its first letter. The result is
therefore `"a"` (the first letter of `alimentacion`) when the message holds
a `0`, and `"otros"` otherwise. `MessageParser.CategoryAsWritten` models
this, and `MessageParser.KeywordCategory` is the keyword lookup the table
describes. `MessageParser.CategoryDiverges` shows that the two disagree in
both directions. The rest of the model uses the loop as written, because
that is what the application stores.

## Model

| member | source | states |
|---|---|---|
| MessageParser.ParseMessage | src/utils/messageParser.ts:5-102 | The result is never an edit or delete request. It is help exactly when the lowered, trimmed message holds a help phrase. A report or export spans from the first of today's month to today. An expense has no trigger phrase; its amount is the first number's amount and is positive; its category is `a` when the message holds `0`, else `otros`; it carries the cleaned description and today's date. "Not understood" carries the fixed reason. |
| MessageParser.ParseCascade | src/utils/messageParser.ts:8-102 | Each kind is the answer exactly when every earlier phrase group fails and its own group matches. An expense is the answer exactly when no group matches and the first amount exists and is positive. "Not understood" is the answer exactly when no group matches and there is no amount, or the amount is not positive. |
| MessageParser.NoPhraseNoDigitIsNa | src/utils/messageParser.ts:57-102 | A message with no trigger phrase and no ASCII digit is not understood, with the fixed reason. |
| MessageParser.PreferenceAlwaysActivar | src/utils/messageParser.ts:48-54 | When the preference branch runs, the computed action is always `activar`, because `desactivar` contains `activar`. The period is `mensual` when the message says so, else `semanal` when it says that. |
| MessageParser.PreferenceDetail | src/utils/messageParser.ts:48-53 | The action and period computed in the preference branch; `MessageParser.PreferenceAlwaysActivar` states that the action is always `activar` there and which period wins. |
| MessageParser.CategoryAsWritten | src/utils/messageParser.ts:72-83 | The category loop over the keyword object's values; `MessageParser.CategoryZeroLaw` states that it gives `a` exactly when the message holds `0`, and `MessageParser.CategoryWithoutZero` that it keeps `otros` otherwise. |
| MessageParser.CategoryZeroLaw | src/utils/messageParser.ts:72-83 | The category loop as written gives `a` exactly when the lowered message contains `0`, and `otros` otherwise. |
| MessageParser.CategoryWithoutZero | src/utils/messageParser.ts:72-83 | Over any list of ids, the loop finds no hit in a message without `0` and keeps `otros`. |
| MessageParser.KeywordCategory | src/utils/messageParser.ts:73-78 | The lookup the keyword object describes yields either `otros` or the category of a keyword the message contains. It yields `otros` when the message contains no keyword. |
| MessageParser.CategoryDiverges | src/utils/messageParser.ts:72-83 | The loop as written and the keyword lookup disagree in both directions. "comida 5000" is filed under `a` instead of `alimentacion`. "comida 25" is filed under `otros` instead of `alimentacion`. |
| MessageParser.KeywordFirst | src/utils/messageParser.ts:74 | A message starting with `comida` gets `alimentacion` from the keyword lookup. |
| MessageParser.ZeroInLowered | src/utils/messageParser.ts:6 | Lower-casing and trimming neither create nor remove a `0`. The lowered message contains `0` exactly when the typed message does. |
| MessageParser.Lowered | src/utils/messageParser.ts:6 | The lowered, trimmed message is no longer than the message and has no white space at either end. |
| MessageParser.FillerAt | src/utils/messageParser.ts:87 | The filler word found at a position is one of `gasté`, `pagué`, `compré`, `en`, ignoring case. When none is found, no filler word starts there. |
| MessageParser.FillerWordAt | src/utils/messageParser.ts:87 | A filler word at the start of a text, in any case, is the one the alternation finds there. |
| MessageParser.RemoveFillers | src/utils/messageParser.ts:87 | Removing filler words only drops characters: the result's characters are among the text's and it is no longer. |
| MessageParser.RemoveFillersFiller | src/utils/messageParser.ts:87 | A filler word at the start, in any case, is removed, and the rest is treated on its own. |
| MessageParser.RemoveFillersPrefix | src/utils/messageParser.ts:87 | Removal works left to right: a prefix in which no filler word starts is kept as it is, before the removal of the rest. |
| MessageParser.RemoveFillersIdentity | src/utils/messageParser.ts:87 | Removal leaves a text unchanged exactly when no filler word starts at any of its positions. |
| MessageParser.RemoveFillersShrinks | src/utils/messageParser.ts:87 | A filler word starting anywhere makes the text shorter. |
| MessageParser.RemoveFillersNone | src/utils/messageParser.ts:87 | Text in which no filler word starts anywhere is left unchanged. |
| MessageParser.RemoveFillersInsideWord | src/utils/messageParser.ts:87 | `en` is removed inside words: `cena` becomes `ca`. |
| MessageParser.RemoveFillersNotIdempotent | src/utils/messageParser.ts:87 | One pass of removal can create a new filler word: `eenn` becomes `en`, which a second pass removes. |
| MessageParser.Description | src/utils/messageParser.ts:85-93 | The description is never empty and holds no ASCII digit. It is either the default `Gasto registrado`, or it is made of characters of the message and has no white space at either end. Which words it keeps is stated by `MessageParser.FillerNumberFillerWord`, `MessageParser.WordThenNumber` and `MessageParser.WordThenScaledNumber`. |
| MessageParser.CleanedChars | src/utils/messageParser.ts:86-87 | The cleaning steps only remove characters, and none of the result is a digit. |
| MessageParser.WordThenNumber | src/utils/messageParser.ts:86-93 | Take a message that is a word (no digit, no space at its ends, and no filler word starting anywhere in it), a space and a run of digits. Its description is the word. |
| MessageParser.WordThenScaledNumber | src/utils/messageParser.ts:86-93 | Take such a word, a space, a run of digits, a space and `mil` or `k` in any case. The whole amount, unit included, is stripped, and the description is the word. |
| MessageParser.FillerNumberFillerWord | src/utils/messageParser.ts:86-93 | Take a filler word, a run of digits, another filler word and such a word, separated by spaces. The number goes with the amount strip, both filler words with the filler removal and the leftover spaces with the trim, so the description is the word. |
| MessageParser.FirstAmountExists | src/utils/messageParser.ts:58-59 | There is an amount exactly when the message holds an ASCII digit. |
| MessageParser.FirstAmount | src/utils/messageParser.ts:58-68 | The amount of the first number in the message; `MessageParser.FirstAmountExists` states when there is one and `MessageParser.FirstAmountValue` what it is. |
| MessageParser.FirstAmountValue | src/utils/messageParser.ts:58-68 | The amount is the decimal value of the first match's digits. It is multiplied by 1000 exactly when the match's unit is `mil` or `k`. |
| AmountScanner.MatchUnit | src/utils/messageParser.ts:58 | The unit group's alternatives are tried in order, ignoring case. `thousand` is only an alternative of the amount expression. No unit is found exactly when no allowed word starts the text. |
| AmountScanner.UnitWordsExclusive | src/utils/messageParser.ts:58 | At most one unit word can start a text. |
| AmountScanner.TokenAt | src/utils/messageParser.ts:58 | The match at a digit has the expression's shape, and each of its parts is as long as the text allows. |
| AmountScanner.TokenAtUnique | src/utils/messageParser.ts:58 | Any well-formed greedy match at a digit is the one the scanner finds. |
| AmountScanner.FirstToken | src/utils/messageParser.ts:58-61 | There is no match exactly when the text has no ASCII digit. Otherwise the first match starts at a digit. |
| AmountScanner.StripTokens | src/utils/messageParser.ts:86 | Removing every match leaves no digit and adds no character. |
| AmountScanner.StripTokensNoDigit | src/utils/messageParser.ts:86 | Text without digits holds no match and is left unchanged. |
| AmountScanner.StripTokensPrefix | src/utils/messageParser.ts:86 | Matches are removed left to right: a digit-free prefix is kept unchanged. |
| AmountScanner.StripNumberSpace | src/utils/messageParser.ts:86 | A run of digits and a space, followed by text that starts with neither white space nor a unit word, form one match: both go, and stripping carries on after them. |
| AmountScanner.StripTokensDigits | src/utils/messageParser.ts:86 | A run of digits is removed entirely. |
| AmountScanner.NumericCharsOfToken | src/utils/messageParser.ts:62 | Keeping only the digits and dots of a match leaves its number: the integer digits, the dot if present and the fraction digits. |
| AmountScanner.ParseFloatDecimal | src/utils/messageParser.ts:62 | `parseFloat` reads such a number as its decimal value. |
| AmountScanner.ParseFloat | src/utils/messageParser.ts:62 | `parseFloat` on digits and dots; `AmountScanner.ParseFloatDecimal` states that a match's number is read as its decimal value. |
| AmountScanner.ScaledIff | src/utils/messageParser.ts:64 | The test "the lowered match includes `mil` or `k`" holds exactly when the unit is `mil` or `k`, so `thousand` does not multiply. |
| AmountScanner.AmountOfToken | src/utils/messageParser.ts:62-68 | A match's amount is its decimal value, times 1000 exactly for the units `mil` and `k`. |
| AmountScanner.Amount | src/utils/messageParser.ts:62-68 | The amount a match stands for; `AmountScanner.AmountOfToken` states it is the decimal value, times 1000 exactly for `mil` and `k`. |
| ParserExamples.KilosAmount | src/utils/messageParser.ts:58-65 | "2 kilos" has the amount 2000: the `k` of `kilos` counts as the unit. |
| ParserExamples.ThousandAmount | src/utils/messageParser.ts:58-67 | "5 thousand" has the amount 5: `thousand` is matched but does not multiply. |
| ParserExamples.ThousandUnit | src/utils/messageParser.ts:58 | The amount expression does match `thousand` as its unit. |
| ParserExamples.DottedAmount | src/utils/messageParser.ts:58-62 | "15.000" has the amount 15: a dot is a decimal point, not a thousands separator. |
| ParserExamples.FractionAmount | src/utils/messageParser.ts:58-62 | "1000.50" has the amount 1000.5. |
| ParserExamples.ExportWordsGiveReport | src/utils/messageParser.ts:14-36 | "Exportar gastos del mes" asks for a report, not an export, because the report phrases are checked first. |
| ParserExamples.ActivateReportGivesReport | src/utils/messageParser.ts:14-55 | "Activar reporte diario" asks for a report, not a preference change. |
| ParserExamples.ReportWithNumberGivesReport | src/utils/messageParser.ts:14-68 | "Dame el reporte de 5000" asks for a report, not an expense. |
| ParserExamples.ZeroFirstIsNa | src/utils/messageParser.ts:58-102 | "0 en 50 cosas" is not understood: only the first number counts, and it is zero. |
| ParserExamples.FifteenMilIsExpense | src/utils/messageParser.ts:58-95 | "Comí por 15 mil" is an expense of 15000 filed under `otros`, described as `Comí por`. |
| ParserExamples.FifteenMilDescription | src/utils/messageParser.ts:86-87 | "Comí por 15 mil" is described as `Comí por`: the whole match, unit included, is stripped. |
| ParserExamples.TaxiIsExpense | src/utils/messageParser.ts:58-95 | "Taxi 20" is an expense of 20 filed under `a`, because it holds a `0`, although `taxi` is a transport keyword. It is described as `Taxi`. |
| ParserExamples.TaxiDescription | src/utils/messageParser.ts:86-87 | "Taxi 20" is described as `Taxi`. |
| ParserExamples.CombustibleDescription | src/utils/messageParser.ts:86-87 | "Gasté 2000 en combustible" is described as `combustible`: `Gasté` and `en` are removed with the number. |
| ParserExamples.ReportWhen | src/utils/messageParser.ts:9-24 | A message with a report phrase and no help phrase asks for the report of the current month. |
| ParserExamples.NaWhen | src/utils/messageParser.ts:57-102 | A message with no phrase whose first amount is zero is not understood. |
| ParserExamples.GastoWhen | src/utils/messageParser.ts:57-95 | A message with no phrase and a positive first amount is an expense of that amount, with the cleaned description and today's date. |
| ExpenseInput.Submit | src/components/ExpenseInput.tsx:16-56 | A submit is ignored, leaving the input as it is, exactly when the message is blank or a submit is under way. Otherwise the message is parsed, the record is built from the result, the box is cleared and processing ends. |
| ExpenseInput.ToExpense | src/components/ExpenseInput.tsx:26-34 | A record is built exactly for an expense with a present, positive amount. It has the given id, the amount and the type `gasto`. Its date is the parsed date or today. A present, non-empty category or description is kept. A missing or empty category becomes `otros`, and a missing or empty description the default text, so neither is ever empty. |
| ExpenseInput.TextOr | src/components/ExpenseInput.tsx:29-32 | `value \|\| fallback`: a present, non-empty text wins; otherwise the fallback. |
| ExpenseInput.ResponseFor | src/components/ExpenseInput.tsx:36-48 | The reply announces a registered expense exactly when one was added, with its amount and category. Otherwise help gets the greeting. An unparsed result gets its reason when that is present and non-empty, else the fallback reply. Everything else gets the "processed" reply. |
| ExpenseInput.SubmitAdds | src/components/ExpenseInput.tsx:23-37 | An expense is added exactly when the message parses as an expense. The record then carries the first amount, category `a` or `otros`, the cleaned description, today's date and the type `gasto`. |
| ExpenseInput.AddedFromGasto | src/components/ExpenseInput.tsx:27-34 | A parsed expense with a positive amount and a date, a non-empty category and a non-empty description becomes a record with exactly those fields, whatever the date. |
| ExpenseInput.SubmitReason | src/components/ExpenseInput.tsx:44-45 | A message that is not understood is answered with the interpreter's fixed reason. |
| ExpenseInput.ReplyNa | src/components/ExpenseInput.tsx:44-45 | The reply to the interpreter's unparsed result is its reason. |
| ExpenseInput.ReplyFallback | src/components/ExpenseInput.tsx:44-45 | An unparsed result without a reason gets the fallback reply. |
| ExpenseInput.BlankIsNa | src/utils/messageParser.ts:6-102 | A blank message would be not understood anyway: it holds no phrase and no digit. |
| App.AddExpense | src/App.tsx:39-41 | The new expense comes first, followed by the old list in order. |
| App.AddTotal | src/App.tsx:39-41 | Adding an expense adds exactly that expense to the list's contents and its amount to the total. |
| App.SaveExpense | src/App.tsx:48-58 | If some expense has the id, the first one with it is replaced, and the length and every other position are unchanged. Otherwise the expense is put in front. |
| App.SaveFindsSaved | src/App.tsx:48-58 | After a save, the first expense with the id is the saved one, and every element is the saved one or an old one. |
| App.SaveIdempotent | src/App.tsx:48-58 | Saving the same expense twice gives the same list as saving it once. |
| App.DeleteExpense | src/App.tsx:62-66 | Without confirmation the list is unchanged. With it, no expense with the id remains. The result is always a subsequence of the list, so the order is kept. |
| App.DeleteKeepsOthers | src/App.tsx:62-66 | A confirmed delete keeps every copy of every expense with another id. |
| App.DeleteAbsent | src/App.tsx:62-66 | Deleting an id no expense has changes nothing. |
| App.TabAfter | src/App.tsx:73-82 | A report or a query opens the dashboard. An edit or delete request opens the expense list. Every other message leaves the tab as it is. |
| App.TabAfterMessage | src/App.tsx:73-82 | A typed message opens the dashboard exactly when it reads as a report or a query, and otherwise leaves the tab. It never opens the expense list, because the interpreter gives no edit or delete request. |
| App.Deliver | src/components/ExpenseInput.tsx:23-36 | An ignored submit changes nothing. A handled one moves to the tab the parsed message picks, and prepends the added expense, if there is one, and otherwise keeps the list. |
| App.SubmitGrowsList | src/components/ExpenseInput.tsx:23-36 | A submitted message grows the list by one exactly when it parses as an expense, and the total then grows by its first amount. Otherwise the length is unchanged. The tab becomes the one the parsed message picks. |
| Categories.TableShape | src/data/categories.ts:3-19 | The table has 15 entries with pairwise distinct ids, and `otros` is one of them. |
| Categories.GetCategoryById | src/data/categories.ts:21-23 | A found entry is in the table and has the id. Nothing is found exactly when no entry has the id. |
| Categories.GetCategoryByIdExact | src/data/categories.ts:21-23 | The lookup finds a category exactly when it is in the table with that id. |
| Categories.GetCategoryByName | src/data/categories.ts:25-30 | The result is the first entry, in table order, whose lowered name or id contains the lowered query. Nothing is found exactly when no entry matches. |
| Categories.GetCategoryByNameEmpty | src/data/categories.ts:25-30 | The empty query finds the first entry, Alimentación. |
| Categories.GetCategoryByNameIgnoresCase | src/data/categories.ts:26-29 | The lookup gives the same result for a query and its lower case. |
| Dates.FormatIso | src/utils/messageParser.ts:21-22 | The text of a valid date has ten characters, with dashes at positions 4 and 7. |
| Dates.ParseFormat | src/components/Dashboard.tsx:17 | Reading back the text of a valid date gives the date. |
| Dates.FormatInjective | src/components/ExpensesList.tsx:26 | Two valid dates with the same text are the same date. |
| Dates.Compare | src/components/ExpensesList.tsx:35 | Comparing dates gives -1, 0 or 1, and 0 exactly for equal dates. |
| Dates.CompareAntisymmetric | src/components/ExpensesList.tsx:35 | Swapping the dates negates the comparison. |
| ExpensesList.CompareText | src/components/ExpensesList.tsx:41 | Comparing categories gives -1, 0 or 1, and 0 exactly for equal texts. |
| ExpensesList.CompareTextAntisymmetric | src/components/ExpensesList.tsx:41 | Swapping the texts negates the comparison. |
| ExpensesList.Matches | src/components/ExpensesList.tsx:22-29 | The filter callback; `ExpensesList.FilteredContents` states that exactly the expenses passing it are shown. |
| ExpensesList.Comparison | src/components/ExpensesList.tsx:30-46 | The sort callback gives -1, 0 or 1. |
| ExpensesList.ComparisonAntisymmetric | src/components/ExpensesList.tsx:30-46 | For every field and direction, swapping the expenses negates the callback. |
| ExpensesList.InsertContents | src/components/ExpensesList.tsx:30-46 | Inserting adds exactly the inserted expense to the contents. |
| ExpensesList.InsertSorted | src/components/ExpensesList.tsx:30-46 | Inserting into a sorted list keeps it sorted. |
| ExpensesList.Sort | src/components/ExpensesList.tsx:30-46 | The sort with the callback; `ExpensesList.SortSorted` states that its result is ordered and a permutation of the input. |
| ExpensesList.SortSorted | src/components/ExpensesList.tsx:30-46 | The sorted list is in the callback's order and is a permutation of the input. |
| ExpensesList.SortKeepsTies | src/components/ExpensesList.tsx:30-46 | When all elements compare equal, sorting leaves the list as it is. |
| ExpensesList.SortTotal | src/components/ExpensesList.tsx:30-48 | Sorting leaves the total unchanged. |
| ExpensesList.FilteredContents | src/components/ExpensesList.tsx:21-46 | The shown list is a permutation of the subsequence of expenses that pass all three filters. An expense is shown exactly when it is in the list and passes, as many times as it appears. |
| ExpensesList.FilteredOrder | src/components/ExpensesList.tsx:30-46 | The shown list is in the chosen order. By amount, ascending gives non-decreasing amounts and descending gives non-increasing ones. |
| ExpensesList.Filtered | src/components/ExpensesList.tsx:21-46 | The shown list; `ExpensesList.FilteredContents` and `ExpensesList.FilteredOrder` state its contents and order. |
| ExpensesList.TotalFiltered | src/components/ExpensesList.tsx:48 | The shown total; `ExpensesList.TotalIgnoresSort` states that it sums the expenses passing the filters. |
| ExpensesList.TotalIgnoresSort | src/components/ExpensesList.tsx:48 | The shown total is the sum over the expenses that pass the filters, whatever the sort field and direction. |
| ExpensesList.EmptyFiltersKeepAll | src/components/ExpensesList.tsx:23-26 | With every filter empty, the shown list is a permutation of all the expenses. |
| Dashboard.PreviousMonthIsOneLess | src/components/Dashboard.tsx:25-26 | The previous month is again a month from 0 to 11, and exactly one month earlier counted from year zero. January goes back to December of the year before. |
| Dashboard.ThisMonth | src/components/Dashboard.tsx:16-21 | Every expense in the list is of type `gasto` and dated in the current month and year, and the list is no longer than the input. |
| Dashboard.LastMonth | src/components/Dashboard.tsx:23-30 | Every expense in the list is of type `gasto` and dated in the month before, and the list is no longer than the input. |
| Dashboard.MonthContents | src/components/Dashboard.tsx:16-30 | Each month's list holds exactly the expenses of type `gasto` dated in that month and year, as often as the input holds them. It never holds an income. |
| Dashboard.MonthTotalAppend | src/components/Dashboard.tsx:32-33 | A month's total over two lists together is the sum of their month totals. |
| Dashboard.MonthTotalAdd | src/components/Dashboard.tsx:32-33 | A new expense adds its amount to the total of its own month and nothing to any other month's. An income adds nothing. |
| Dashboard.MonthTotal | src/components/Dashboard.tsx:32-33 | The sum over a month's expenses; `Dashboard.MonthTotalAppend` and `Dashboard.MonthTotalAdd` state how it grows. |
| Dashboard.MonthlyChangeInverse | src/components/Dashboard.tsx:34 | With a positive last total, applying the change to it gives this month's total, and the change is positive exactly when the total grew. |
| Dashboard.MonthlyChangeNoBase | src/components/Dashboard.tsx:34 | Without a positive total last month, the change is 0. |
| Dashboard.MonthlyChange | src/components/Dashboard.tsx:34 | The percentage change; `Dashboard.MonthlyChangeInverse` and `Dashboard.MonthlyChangeNoBase` state it. |
| Dashboard.Slices | src/components/Dashboard.tsx:37-48 | There is one slice per table entry, in table order, holding the entry's name and the total of its expenses. |
| Dashboard.ChartOrder | src/components/Dashboard.tsx:37-49 | The chart shows only positive totals and keeps the table order. |
| Dashboard.ChartContents | src/components/Dashboard.tsx:37-49 | A slice is shown exactly when it is some table entry's slice and its total is positive. |
| Dashboard.CategoryData | src/components/Dashboard.tsx:37-49 | The chart over the application's table; `Dashboard.ChartOrder` and `Dashboard.ChartContents` state its order and contents. |
| Dashboard.TopExpensesAreTop | src/components/Dashboard.tsx:71-73 | The top list has five expenses, or all of them when the month has fewer, all taken from the month. Amounts are non-increasing, and no expense left out is larger than one shown. |
| Dashboard.TopExpensesLeftOut | src/components/Dashboard.tsx:71-73 | Counting copies, every expense of the month left out of the top list, including a further copy of one that is shown, is no larger than anything shown. |
| Dashboard.TopExpenses | src/components/Dashboard.tsx:71-73 | The five largest; `Dashboard.TopExpensesAreTop` states it. |
| ExportUtils.Rows | src/utils/exportUtils.ts:8-14 | There is one line per expense, in input order. |
| ExportUtils.Row | src/utils/exportUtils.ts:8-14 | One expense's line; `ExportUtils.RowFields` and `ExportUtils.RowOneLine` state what it holds. |
| ExportUtils.Csv | src/utils/exportUtils.ts:6-15 | The CSV text; `ExportUtils.CsvHeader` and `ExportUtils.CsvLines` state what it holds. |
| ExportUtils.CsvHeader | src/utils/exportUtils.ts:4-15 | The text starts with the header line, and with no expenses it is the header alone. |
| ExportUtils.CsvLines | src/utils/exportUtils.ts:6-15 | When no field holds a line feed, splitting the text at line feeds gives back the header and then exactly one line per expense, in order. |
| ExportUtils.RowOneLine | src/utils/exportUtils.ts:8-14 | A line has no line feed when its category, description and written amount have none. |
| ExportUtils.RowFields | src/utils/exportUtils.ts:8-14 | When no field holds a comma, splitting a line at commas gives back its five fields. |
| ExportUtils.CommaBreaksRow | src/utils/exportUtils.ts:12 | A comma in the description is not escaped, so the line splits into more than five fields. |

## Left out

- React rendering, hooks, JSX, charts and icons are left out. The settings, help and edit-dialog components are user interface or static text.
- Clocks and time zones: `new Date()`, `Date.now()` and `toISOString()` become the parameters `today`, `id` and the current month and year. The model does not capture the UTC/local mismatch between `toISOString()` and `getMonth()`.
- The dashboard's six-month trend is left out. It depends on `Date.setMonth` overflow and locale month names.
- `localeCompare` is replaced by code-point order (`ExpensesList.CompareText`). Locale collation is not part of the model.
- `toLocaleString`, `toFixed` and the chart colour string are display formatting and are left out. `amount.toString()` in the CSV export is the parameter `show`.
- Amounts are exact reals. Floating-point rounding in `parseFloat`, in sums and in the percentage is not modelled.
- `parseFloat` is modelled on texts of digits and dots only, which is all the stripped match can hold. Signs, exponents, leading white space and `Infinity` are left out.
- `ToLower` covers ASCII and the Spanish accented capitals only. Other Unicode case mappings are not modelled.
- Local storage, JSON export and the Blob/DOM download are I/O and are left out. The webhook URLs that the interface only displays are left out as well.
- `window.confirm` is the boolean parameter `confirmed`.
- The `catch` branch of the submit handler is left out: the interpreter never throws.
- Sort stability is stated only for ties (`ExpensesList.SortKeepsTies`). The engine's sort algorithm is modelled as an insertion sort.
- MessageParser.Description: its own contract states only the shape of the result (never empty, no digit, no white space at its ends, characters of the message or the default). Which words it removes is stated by lemmas over families of messages (`MessageParser.FillerNumberFillerWord`, `MessageParser.WordThenNumber`, `MessageParser.WordThenScaledNumber`) and by the worked examples, not for every message.
