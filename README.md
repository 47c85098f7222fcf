# cashd core, modelled in Dafny

cashd is a terminal viewer for personal finance transactions. This project models its ingestion and query engine and proves properties of that model:

- **Reading transactions.** Two line-by-line ledger journal parsers emit a transaction on every second posting. One resets its posting count on each header; the other resets it after each emit. The CSV reader resolves columns from the header row, converts each record's cells through the default mapping tables, infers a missing account type from the account name, and loads all files sorted by date.
- **Selecting transactions.** A keyword query matcher handles field prefixes, negation and `<`/`>` operators. A query is split into sub-queries at `" OR "`. A binary-search window over the date-sorted list selects a date range.
- **Calendar arithmetic.** Dates are civil dates with a day number. Week, month, quarter and year buckets follow the ISO 8601 week calendar (section 3.2.2 of ISO 8601:2004). The date-range picker clamps its range to its limits and moves it by one increment.
- **Roll-ups.** The time-series aggregation, the per-account and per-category tables, the summary's counters and top lists, and the insights panel.
- **Small utilities.** Comma-grouping of amounts, the saved-search list, and the sortable table's column cycling and comparator.

The model keeps the source's form:
- Loops that update variables are methods with loop invariants. Each is proved equal to a specification function.
- Objects whose fields are updated in place are classes: the summary, the category table, insights, the sortable table, the CSV configuration, the saved-search store, the application model and the date picker.
- Pure code is functions and lemmas.

The files, in dependency order:

- `wrappers.dfy` (module Wrappers): Option/Result and mapping a fallible function over a list
- `text.dfy` (module Text): ASCII lower-casing, split/join, trimming, `strings.Fields`, character removal, byte-wise string order
- `numeric.dfy` (module Numeric): decimal rendering and parsing of numbers, `%.2f` with round-half-even
- `civil.dfy` (module Civil): civil dates, day numbers, `AddDate`, ISO weeks, the date layouts
- `increments.dfy` (module Increments): `FirstDayInIncrement`, `AddIncrement`, `SubtractIncrement`, `QuarterOfYear`
- `transaction.dfy` (module Transactions): the transaction record, its enumerations and field names
- `query.dfy` (module Query): `Matches`, `matchKeyword` and the date and amount keywords
- `sorting.dfy` (module Sorting): a sort by a comparison: sorted and a permutation
- `listing.dfy` (module Listing): copying a Go map into a slice
- `money.dfy` (module Money): `formatInteger` and `FormatMoney`
- `summary.dfy` (module Summary): the summary panel
- `sortabletable.dfy` (module SortableTable): column cycling, sort direction, `compareAny`
- `accounttable.dfy` (module AccountTable): `getAccountInfo` and the account comparator
- `categorytable.dfy` (module CategoryTable): `getCategoryInfo` and the category cells
- `aggregation.dfy` (module Aggregation): `aggregate`, `aggregateByAccount`, `aggregateByCategory`
- `insights.dfy` (module Insights): `updateInsights`
- `savedsearch.dfy` (module SavedSearches): saved-search upsert, delete and load order
- `journal_syntax.dfy` (module JournalSyntax): the header and posting line patterns, number syntax
- `ledger_parser.dfy` (module LedgerParser): `parseJournal` in `internal/data/ledger/parser.go`
- `data_parser.dfy` (module JournalParser): `ParseJournal` in `internal/data/parser.go`
- `csv_config.dfy` (module CsvConfig): `defaultConfig`, `getConfig`
- `csv_parser.dfy` (module CsvRecord): `parseCsvRecord`
- `csv_loader.dfy` (module CsvLoader): `readCsv`, `LoadTransactions`
- `app_model.dfy` (module AppModel): `filterTransactions`, `searchTransactions`, `updateDatePickerLimits`, `getTimeSeriesChartName`
- `datepicker.dfy` (module DatePicker): the date-range picker

## Model

| member | source | states |
|---|---|---|
| Wrappers.MapAllInOrder | internal/data/csv/loader.go:100-103 | a per-record conversion succeeds exactly when every record converts, and then yields one result per record, in record order |
| Text.ToLowerIsLower | internal/model/model.go:270 | lower-casing keeps the length, leaves no upper-case letter and changes nothing in lower-case text |
| Text.FindFirst | internal/model/model.go:267 | the first occurrence of a separator, or none exactly when it does not occur |
| Text.Split | internal/model/model.go:267 | splitting yields at least one piece and no piece contains the separator |
| Text.JoinSplit | internal/model/model.go:267 | the pieces between the separators, joined again with it, give back the query |
| Text.TrimSpaceEmpty | internal/model/model.go:261-264 | a query trims to the empty string exactly when it is blank |
| Text.TakeWord | internal/model/model.go:270 | a word is the longest run of non-space characters at the front |
| Text.Fields | internal/model/model.go:270 | every keyword of a query is a non-empty run of non-space characters |
| Text.FieldsWeave | internal/model/model.go:270 | the keywords are the maximal non-space runs of the query, in order: the query is the keywords woven with blank gaps, and the gaps between two keywords hold at least one space |
| Text.WeaveFields | internal/model/model.go:270 | conversely, any way of writing a text as non-space words separated by white space gives exactly its keywords, so the split is unique |
| Text.FieldsEmpty | internal/model/model.go:261-270 | a query yields no keyword exactly when it trims to the empty string |
| Text.RemoveChar | internal/data/ledger/parser.go:71-72 | the result holds no removed character and is no longer than the input |
| Text.RemoveCharAppend | internal/data/parser.go:74-75 | removing a character distributes over concatenation |
| Text.LastIndexOf | internal/data/ledger/parser.go:36 | the last position of a character, or none when it does not occur |
| Text.StrLessTrichotomy | internal/ui/sortabletable.go:234-254 | Go's string `<` is total: any two strings are equal or ordered one way |
| Text.StrLessTransitive | internal/ui/sortabletable.go:234-254 | Go's string `<` chains |
| Text.StrLessIrreflexive | internal/ui/sortabletable.go:234-254 | no string is `<` itself |
| Text.PadLeft | internal/ui/sortabletable.go:98-101 | `%*s` padding: the width is reached with spaces on the left, the text is kept whole at the right end |
| Numeric.NatToString | internal/ui/categorytable.go:160 | `%d` of a count is a digit string without a leading zero |
| Numeric.NatToStringRoundTrip | internal/ui/categorytable.go:160 | reading back the `%d` numeral gives the count |
| Numeric.ZeroPad | internal/data/transaction.go:215 | zero padding keeps the value and reaches the width |
| Numeric.ParseNegated | internal/data/parser.go:76-81 | a leading minus negates the parsed value and fails where the unsigned numeral fails |
| Numeric.ParseDigits | internal/data/csv/parser.go:52-57 | a numeral of digits only parses as its natural value |
| Numeric.RoundHalfEven | internal/data/money.go:9 | `%.2f` rounding: within one half of the value, ties to the even integer |
| Numeric.TwoDecimalsRoundTrip | internal/data/transaction.go:272 | parsing the `%.2f` text back gives the amount rounded to cents |
| Numeric.TwoDecimalsShape | internal/data/money.go:9-12 | `%.2f` text is digits, one '.', and exactly two decimals |
| Civil.DayNumberInjective | internal/data/transaction.go:228-230 | dates and day numbers correspond one to one; Before is calendar order |
| Civil.AddDays | internal/date/date.go:43 | moving by k days moves the day number by k |
| Civil.AddDaysAdd | internal/date/date.go:88-91 | moving by j days and then by k days is moving by j + k days |
| Civil.AddMonths | internal/date/date.go:45-49 | AddDate by months moves the running month index and keeps the day, overflowing into the next month |
| Civil.DayInMonth | internal/date/date.go:45-49 | the overflow of AddDate is counted in days from the first of the month |
| Civil.AddMonthsMonthStart | internal/date/date.go:45-49 | from the first of a month, AddDate by months lands on the first of a month |
| Civil.GoWeekdayIsIso | internal/date/date.go:81-85 | Go's weekday 0 (Sunday) is ISO weekday 7, the other days agree |
| Civil.IsoWeek | internal/date/date.go:75 | the ISO week number is at least 1 |
| Civil.IsoWeekThursday | internal/date/date.go:75 | the ISO week-numbering year and week are those of the Thursday of the date's Monday-to-Sunday week |
| Civil.MakeDate | internal/data/transaction.go:248 | a date is built exactly when the month and day exist |
| Civil.ParseFirst | internal/data/transaction.go:246-253 | the date of the first layout that parses, none exactly when every layout fails |
| Civil.FormatIsoDate | internal/data/transaction.go:215 | "2006-01-02" text has ten characters with dashes at positions 4 and 7 |
| Civil.FormatParseIsoDate | internal/data/transaction.go:215 | formatting a date and parsing it with the same layout gives the date back |
| Increments.NameInjective | internal/date/date.go:8-20 | the increment names are distinct |
| Increments.QuarterOfYear | internal/date/date.go:70-72 | the quarter is 1-4 and holds the date's month |
| Increments.FirstDayOfWeek | internal/date/date.go:74-92 | the Jan-4 walk-back lands on the Monday of the date's ISO week |
| Increments.WeekStart | internal/date/date.go:74-92 | the weekly start is a Monday at most six days before the date |
| Increments.CalendarBucketStart | internal/date/date.go:94-106 | month, quarter and year starts are day 1 of the date's year, never after the date |
| Increments.QuarterStart | internal/date/date.go:98-102 | a quarter starts in January, April, July or October, no later than the date's month |
| Increments.AllTimeIsAnnual | internal/date/date.go:33-34 | all time buckets exactly as the year does, on 1 January |
| Increments.AlignedIff | internal/date/date.go:25-38 | which dates start a bucket, per increment |
| Increments.FirstDayIdempotent | internal/date/date.go:25-38 | bucketing a bucket start gives it back |
| Increments.IncrementDefined | internal/date/date.go:40-68 | adding or subtracting fails (the source panics) exactly for all time |
| Increments.IncrementMoves | internal/date/date.go:40-68 | a week moves 7 days; months, quarters and years move 1, 3, 12 months with AddDate's overflow |
| Increments.IncrementMonthStart | internal/date/date.go:44-49 | on the first of a month, the increment lands on the first of the month 1, 3 or 12 months away |
| Increments.IncrementRoundTrip | internal/date/date.go:40-68 | from a bucket start, one increment forward or back gives a bucket start, and the opposite move returns |
| Increments.IncrementDirection | internal/date/date.go:40-68 | adding moves after the date, subtracting before it |
| Transactions.ParseTxnType | internal/data/transaction.go:26-38 | only "Income" and "Expense" decode, to the type of that name |
| Transactions.ParseAccountType | internal/data/transaction.go:56-68 | only "Cash", "Bank Account" and "Credit Card" decode, to the type of that name |
| Transactions.AllFieldsComplete | internal/data/transaction.go:80-89 | every field of a transaction is listed once |
| Transactions.FieldNameInjective | internal/data/transaction.go:80-89 | field names identify their field |
| Transactions.ParseField | internal/data/transaction.go:91-104 | a name decodes exactly when some field carries it, and to that field |
| Transactions.ParseFieldName | internal/data/transaction.go:91-104 | decoding a field's own name gives the field |
| Transactions.TypeSymbol | internal/data/transaction.go:116-125 | the type symbol is empty exactly for an unset type |
| Transactions.AccountSymbol | internal/data/transaction.go:127-138 | the account symbol is empty exactly for an unset account type |
| Transactions.SymbolsInjective | internal/data/transaction.go:116-138 | different types, and different account types, never share a symbol |
| Query.CutPrefix | internal/data/transaction.go:144 | strings.CutPrefix succeeds exactly when the prefix leads, and the rest follows it |
| Query.ParseDateKeyword | internal/data/transaction.go:237-244 | a recognised keyword is an optional operator followed by a date text; anything else gives no operator and no text |
| Query.ParseDateKeywordOf | internal/data/transaction.go:237-244 | an operator and a date text are read back as that pair |
| Query.ParseDateText | internal/data/transaction.go:246-253 | a date text parses, with the layout of its length, exactly when its month and day exist |
| Query.DateComparison | internal/data/transaction.go:219-234 | `>X` and `<X` are strict comparisons with the parsed date |
| Query.MalformedDateNeverMatches | internal/data/transaction.go:210-218 | a keyword without the date shape matches no date |
| Query.ParseAmountKeyword | internal/data/transaction.go:291-298 | a recognised keyword is an optional operator followed by an optional amount text; anything else gives neither |
| Query.ParseAmountKeywordOf | internal/data/transaction.go:291-298 | an operator and an amount text are read back as that pair |
| Query.AmountTextParses | internal/data/transaction.go:277-279 | every amount text the recogniser accepts parses as a number |
| Query.AmountComparison | internal/data/transaction.go:276-288 | `>N` and `<N` are strict comparisons with the value of N |
| Query.BareAmountOperator | internal/data/transaction.go:279-284 | a bare `>` or `<` compares with zero, the value of the ignored parse error |
| Query.MalformedAmountNeverMatches | internal/data/transaction.go:267-275 | a keyword without the amount shape matches no amount |
| Query.UpperCaseNeverMatches | internal/data/transaction.go:255-265 | fields are compared lower-cased, so an upper-case keyword never matches them |
| Query.EmptyKeywordMatches | internal/data/transaction.go:255-265 | the empty keyword is contained in every text field |
| Query.PrefixedKeyword | internal/data/transaction.go:155-173 | `d: t: a: c: m: p:` keywords test only their own field |
| Query.PrefixIsolation | internal/data/transaction.go:155-173 | transactions that agree on a field agree on every keyword prefixed with it |
| Query.UnprefixedKeyword | internal/data/transaction.go:174-180 | an unprefixed keyword matches when any of the six field matchers does |
| Query.NegatedKeyword | internal/data/transaction.go:144-147 | `-k` holds exactly when k does not match |
| Query.Matches | internal/data/transaction.go:140-153 | true exactly when every keyword holds, so no keywords match everything |
| Query.MatchesAppend | internal/data/transaction.go:140-153 | keywords combine by conjunction |
| Sorting.SortBySorted | internal/ui/summary.go:156-158 | sort.Slice leaves the list ordered by its comparator and a permutation of its input |
| Sorting.DistinctPermutation | internal/model/aggregation.go:59-61 | reordering a list without repeats leaves it without repeats |
| Sorting.SortedPrefix | internal/ui/insights.go:79-86 | the first n of a sorted permutation come from the input and precede every element left out |
| Listing.ListMap | internal/ui/summary.go:153-155 | the loop over a map lists every key once with its value |
| Listing.ListsPermutation | internal/ui/summary.go:156-158 | a reordered listing still lists the same map |
| Listing.ListsTotal | internal/ui/summary.go:151-176 | a listing's values sum to the map's total |
| Listing.ListsLength | internal/ui/summary.go:153-155 | a listing has one entry per key |
| Listing.MapTotalAdd | internal/ui/summary.go:130 | adding to one key's value adds to the map's total |
| Money.FormatInteger | internal/data/money.go:22-32 | the loop's output is the digits with a comma before every group of three from the right |
| Money.LoopGroupsThrees | internal/data/money.go:24-28 | the rule "comma before i when i > 0 and (len - i) % 3 == 0" is grouping by threes from the right |
| Money.ShortUnchanged | internal/data/money.go:24-28 | strings of at most three characters get no comma |
| Money.NoLeadingComma | internal/data/money.go:25 | the grouped text starts with the first digit, never a comma |
| Money.CommasRemoved | internal/data/money.go:22-32 | removing the commas from the grouped text gives the input back |
| Money.CommaCount | internal/data/money.go:22-32 | a non-empty string gains (len - 1) / 3 commas |
| Money.GroupingExamples | internal/data/money.go:20-21 | illustration only: the two documented examples, 1234 gives 1,234 and 1234567 gives 1,234,567; the general facts are LoopGroupsThrees, CommasRemoved and CommaCount |
| Money.TwoDecimalsNoComma | internal/data/money.go:9 | `%.2f` text holds no comma |
| Money.FormatMoney | internal/data/money.go:8-14 | removing the commas from the money text gives the `%.2f` text |
| Money.FormatMoneyParts | internal/data/money.go:8-14 | the money text is the grouped integer part, a '.', and the two decimals |
| Money.NegativeSignGrouped | internal/data/money.go:22-30 | a negative amount keeps the sign inside the grouping, so -123 is shown as "-,123.00"; the views never show a negative amount |
| Summary.CountsCover | internal/ui/summary.go:64-72 | each transaction is counted once as income or expense, and so is its amount |
| Summary.CountTransactions | internal/ui/summary.go:60-72 | the counts and totals of Income transactions and of every other type |
| Summary.SumsByKeys | internal/ui/summary.go:126-148 | a name has an entry exactly when a transaction of the type carries it |
| Summary.SumsByValues | internal/ui/summary.go:126-148 | a name's entry is the amount of its transactions of the type |
| Summary.SumsByTotal | internal/ui/summary.go:126-148 | the entries hold the whole amount of the type; other types contribute nothing |
| Summary.SortAndTruncate | internal/ui/summary.go:151-176 | at most five entries with the whole total; with at most five names every name sorted descending; otherwise the four largest then "Everything else" with the rest |
| Summary.SumFrom | internal/ui/summary.go:161-164 | the loop sums the values from the fifth entry on |
| Summary.SortedListing | internal/ui/summary.go:152-158 | the sorted listing lists the same map, values descending |
| Summary.Fold | internal/ui/summary.go:159-169 | folding keeps the four largest entries, largest first, and the total |
| Summary.FoldLargest | internal/ui/summary.go:159-169 | no name folded into "Everything else" exceeds the fourth entry |
| Summary.TopEntries | internal/ui/summary.go:126-148 | a top list summarises the per-name sums of the type and totals the type's amount |
| Summary.SummaryModel.constructor | internal/ui/summary.go:46-48 | the zero summary |
| Summary.SummaryModel.SetTransactions | internal/ui/summary.go:57-80 | the counts and totals split by type, summing to the length and the whole amount, and the four top lists |
| Summary.SummaryModel.SetTopLists | internal/ui/summary.go:74-77 | each of the four top lists summarises its type's per-name sums |
| SortableTable.ReversedInvolution | internal/ui/sortabletable.go:165-172 | the toggle always changes the direction, and toggling twice restores it |
| SortableTable.ColumnTitleShape | internal/ui/sortabletable.go:89-107 | only the sort column's title gets the arrow; a right-aligned title fills its width and ends with the unpadded title |
| SortableTable.Table.constructor | internal/ui/sortabletable.go:68-87 | the configured columns, default sort column and direction |
| SortableTable.Table.SortNextColumn | internal/ui/sortabletable.go:147-154 | the new sort column is sortable and is the first sortable one after the old, wrapping around |
| SortableTable.Table.SortPrevColumn | internal/ui/sortabletable.go:156-163 | the new sort column is sortable and is the first sortable one before the old, wrapping around |
| SortableTable.Table.ReverseSortDir | internal/ui/sortabletable.go:165-172 | the direction is toggled |
| SortableTable.Table.TableColumns | internal/ui/sortabletable.go:89-107 | one title per column in column order, each the column's decorated title and width |
| SortableTable.CompareAny | internal/ui/sortabletable.go:234-254 | an answer exactly for cells of one kind; other kinds panic |
| SortableTable.CompareAnyDescNegates | internal/ui/sortabletable.go:249-253 | the descending answer is the negation of the ascending one |
| SortableTable.CompareAnyDescReflexive | internal/ui/sortabletable.go:249-250 | as written, a descending comparison puts a cell before itself |
| SortableTable.InOrderStrict | internal/ui/sortabletable.go:236-247 | the ascending test of every kind is irreflexive and asymmetric |
| SortableTable.CompareStrict | internal/ui/sortabletable.go:234-254 | corrected comparison: an answer exactly for cells of one kind |
| SortableTable.CompareStrictIsStrict | internal/ui/sortabletable.go:234-254 | the corrected comparison is irreflexive and asymmetric both ways and agrees with compareAny ascending |
| AccountTable.ColumnIndex | internal/ui/accounttable.go:23-25 | a column's index is below the column count |
| AccountTable.NextPrevInverse | internal/ui/accounttable.go:39-45 | nextColumn and prevColumn undo each other |
| AccountTable.NextCycle | internal/ui/accounttable.go:39-45 | five steps forward visit all five columns and come back |
| AccountTable.Columns | internal/ui/accounttable.go:103-110 | the table is configured with the five columns in index order |
| AccountTable.ColumnsCycle | internal/ui/accounttable.go:31-45 | the table's generic stepping is nextColumn/prevColumn, and some column is sortable |
| AccountTable.AccountMapKeys | internal/ui/accounttable.go:166-176 | an account has an entry exactly when some transaction names it |
| AccountTable.AccountMapEntries | internal/ui/accounttable.go:167-183 | an entry has its name, the first transaction's type and symbol, the Income sum and the sum of all other amounts |
| AccountTable.CreditIncome | internal/ui/accounttable.go:177-179 | an Income transaction adds to its own account's income and no other |
| AccountTable.CreditExpense | internal/ui/accounttable.go:180-182 | any other transaction adds to its own account's expense and no other |
| AccountTable.AccountMapIncomes | internal/ui/accounttable.go:164-184 | the accounts' incomes add up to the Income total |
| AccountTable.AccountMapExpenses | internal/ui/accounttable.go:164-184 | the accounts' expenses add up to the total of the other types |
| AccountTable.GetAccountInfo | internal/ui/accounttable.go:164-200 | the "Total Accounts" entry first, then one entry per account of the map |
| AccountTable.TotalRowIsSum | internal/ui/accounttable.go:164-199 | the total row's income and expense are the sums over the account rows |
| AccountTable.AccountRows | internal/ui/accounttable.go:196-198 | the account rows name exactly the accounts of the transactions |
| AccountTable.RowLessAsWrittenNotStrict | internal/ui/accounttable.go:139-141 | as written, two rows with equal column text sorted descending are each "less" than the other |
| AccountTable.RowLessMeaning | internal/ui/accounttable.go:129-144 | the corrected comparator keeps the total first and orders the rest by column text, reversed when descending |
| AccountTable.RowLessAsymmetric | internal/ui/accounttable.go:129-144 | the corrected comparator never puts two rows each before the other |
| AccountTable.RowLePreorder | internal/ui/accounttable.go:129-144 | "not after" under the corrected comparator is a total preorder |
| AccountTable.SortAccounts | internal/ui/accounttable.go:129-144 | the sorted rows are a permutation, in comparator order, with the total row first |
| AccountTable.Row | internal/ui/accounttable.go:146-158 | one cell per column, right-aligned cells padded to the width |
| AccountTable.FormatRows | internal/ui/accounttable.go:146-159 | one row per account, in order |
| AccountTable.SelectedIsName | internal/ui/sortabletable.go:130-136 | the selection reported for a selected account row is that account's name, the column the account table's row-id function reads |
| AccountTable.SelectedIdentifies | internal/ui/sortabletable.go:37-38 | the account table's row id is unique: two account rows report the same selection exactly when their accounts have the same name |
| AccountTable.AmountCells | internal/ui/accounttable.go:152-154 | the amount cells fill their width and end with the `%.2f` amounts |
| CategoryTable.TableWidth | internal/ui/categorytable.go:52-58 | the table width is the column widths plus two cells each: 58 |
| CategoryTable.ColumnTitle | internal/ui/categorytable.go:76-81 | a right-aligned title is padded to exactly its width, others are the plain title |
| CategoryTable.CategoryMapKeys | internal/ui/categorytable.go:129-139 | one entry per category some transaction carries, and no other |
| CategoryTable.CategoryMapEntries | internal/ui/categorytable.go:130-142 | an entry has its name, the first transaction's type and symbol, the category's count and its amount over all types |
| CategoryTable.TallyCounts | internal/ui/categorytable.go:140 | one transaction adds one to its own category's count and to no other |
| CategoryTable.TallyAmounts | internal/ui/categorytable.go:141 | one transaction adds its amount to its own category and to no other |
| CategoryTable.CategoryMapCounts | internal/ui/categorytable.go:140 | the counts add up to the number of transactions |
| CategoryTable.CategoryMapAmounts | internal/ui/categorytable.go:141 | the amounts add up to the amount of all transactions, whatever their type |
| CategoryTable.GetCategoryInfo | internal/ui/categorytable.go:128-149 | the result lists the category map, each entry once |
| CategoryTable.CategoryRows | internal/ui/categorytable.go:144-148 | the listed categories are exactly the transactions' categories, each once |
| CategoryTable.CategoryTotals | internal/ui/categorytable.go:128-149 | the listed counts add up to the number of transactions and the amounts to the whole amount |
| CategoryTable.ColumnDataReadsBack | internal/ui/categorytable.go:151-166 | the count cell is a numeral that reads back as the count; the name cell is the name |
| CategoryTable.NumberCells | internal/ui/categorytable.go:114-121 | the count and amount cells fill their width and end with `%d` and `%.2f` text; the name cell is the name |
| CategoryTable.FormatCell | internal/ui/categorytable.go:115-119 | one cell, padded to the width when right-aligned |
| CategoryTable.FormatRow | internal/ui/categorytable.go:113-121 | one category's cells, in column order |
| CategoryTable.FormatRows | internal/ui/categorytable.go:111-123 | one row per category, in order |
| CategoryTable.CategoryTableModel.constructor | internal/ui/categorytable.go:73-91 | no categories and no rows |
| CategoryTable.CategoryTableModel.SetTransactions | internal/ui/categorytable.go:109-125 | the categories list the category map and each row is its category's row |
| Aggregation.AggLevelDate | internal/model/aggregation.go:67-80 | the bucket start of the four calendar increments; all time fails (the source panics) |
| Aggregation.AccumulateFails | internal/model/aggregation.go:37-53 | the loop fails exactly for all time with a matching transaction |
| Aggregation.AddTxnEffect | internal/model/aggregation.go:41-52 | one iteration changes only the transaction's own bucket, by its amount |
| Aggregation.AccumulateKeys | internal/model/aggregation.go:36-53 | one entry per bucket start of a matching transaction |
| Aggregation.AccumulateSums | internal/model/aggregation.go:48-52 | each entry is dated by its key and holds the bucket's Income sum and the sum of the other amounts |
| Aggregation.NonMatchingIgnored | internal/model/aggregation.go:38-40 | transactions the filter rejects change nothing |
| Aggregation.BucketSplit | internal/model/aggregation.go:48-52 | a bucket's income and expense make up its whole amount |
| Aggregation.AggregateTotal | internal/model/aggregation.go:33-63 | the entries hold, in total, exactly the matching amounts |
| Aggregation.DateLePreorder | internal/model/aggregation.go:59-61 | "not after" on dates is a total preorder |
| Aggregation.SortedEntries | internal/model/aggregation.go:59-61 | sorting a listing by date keeps it a listing and makes the dates strictly ascending |
| Aggregation.CreditTxn | internal/model/aggregation.go:38-52 | the loop body is one iteration of the accumulation, and entries stay dated by their key |
| Aggregation.ListEntries | internal/model/aggregation.go:55-58 | the entries list the map, each once |
| Aggregation.Aggregate | internal/model/aggregation.go:33-63 | succeeds exactly when the accumulation does, then lists the map in strictly ascending date order |
| Aggregation.AccountMatchOf | internal/model/aggregation.go:15-31 | the account filter as written selects everything when the name is "Total", else the named account; the corrected filter does so for the total row's name "Total Accounts" instead; the category filter selects its category |
| Aggregation.TotalRowChartsNothing | internal/model/aggregation.go:20 | as written, the total row's name "Total Accounts" selects only accounts literally of that name |
| Aggregation.TotalRowChartsAll | internal/model/aggregation.go:20 | corrected, the total row's name selects every transaction |
| Aggregation.AggregateByAccountAsWritten | internal/model/aggregation.go:15-22 | as written, the series of the named account, or of every account for the name "Total", listed ascending and totalling the matching amounts |
| Aggregation.AggregateByAccount | internal/model/aggregation.go:15-22 | corrected, see Findings row 2: the series of the named account, or of every account for the total row, listed ascending and totalling the matching amounts |
| Aggregation.AggregateByCategory | internal/model/aggregation.go:24-31 | the category series lists the accumulated map, ascending, totalling the matching amounts |
| Insights.PickedMembers | internal/ui/insights.go:55-66 | a list holds exactly the matching transactions of its type |
| Insights.ByAmountDescPreorder | internal/ui/insights.go:71-76 | "amount not smaller" is a total preorder |
| Insights.TopShape | internal/ui/insights.go:71-86 | a top list holds min(count, 3) of the list's transactions, largest amount first |
| Insights.TopLargest | internal/ui/insights.go:71-86 | no transaction left out of a top list is larger than one kept |
| Insights.PickedAll | internal/ui/insights.go:55-66 | with a filter that selects everything, each sum is its type's total |
| Insights.PickedCounts | internal/ui/insights.go:55-69 | the two counts add up to at most the input length, exactly it when everything matches and is typed |
| Insights.AccountFilterTotal | internal/ui/insights.go:38-42 | the total row's filter makes each sum its type's total |
| Insights.SortAndCut | internal/ui/insights.go:71-86 | a list sorted largest first and cut to three |
| Insights.CollectMatching | internal/ui/insights.go:52-66 | the loop collects the matching Income and Expense transactions, in order, and their sums; other types are skipped |
| Insights.InsightsModel.constructor | internal/ui/insights.go:34-36 | the zero insight |
| Insights.InsightsModel.UpdateInsights | internal/ui/insights.go:50-87 | the insight is reset and becomes the sums, counts and top lists of the matching Income and Expense transactions |
| Insights.InsightsModel.SetTransactionsWithAccount | internal/ui/insights.go:38-42 | the insight of one account, or of all for the total row |
| Insights.InsightsModel.SetTransactionsWithCategory | internal/ui/insights.go:44-48 | the insight of one category |
| SavedSearches.FirstNamed | internal/data/savedsearch.go:80-88 | the first position holding the name; none exactly when no search has it |
| SavedSearches.AddOrUpdateShape | internal/data/savedsearch.go:80-96 | an existing name updates only its first search and keeps the length; a new name appends one search and changes none |
| SavedSearches.AddOrUpdateIdempotent | internal/data/savedsearch.go:75-99 | saving the same search twice is saving it once |
| SavedSearches.AddOrUpdateNames | internal/data/savedsearch.go:75-99 | after saving, the name is present and no other name appears or disappears |
| SavedSearches.WithoutNameMembers | internal/data/savedsearch.go:106-111 | the kept searches are exactly those with another name |
| SavedSearches.WithoutNameUnchanged | internal/data/savedsearch.go:106-111 | a list without the name is kept as it is |
| SavedSearches.DeletedSearchReturns | internal/data/savedsearch.go:101-113 | as written, a deleted search is written back by the next save of another search |
| SavedSearches.DeletedSearchStaysDeleted | internal/data/savedsearch.go:101-113 | corrected, a deleted search stays deleted when another is saved |
| SavedSearches.LoadedOrder | internal/data/savedsearch.go:50-53 | the loaded list is a permutation of the file's, most recent first |
| SavedSearches.FindNamed | internal/data/savedsearch.go:80-88 | the loop finds the first search of the name, if any |
| SavedSearches.CollectOthers | internal/data/savedsearch.go:106-111 | the loop keeps the searches of other names, in order |
| SavedSearches.SavedSearchStore.constructor | internal/data/savedsearch.go:34-35 | not loaded, an empty list, and the given file |
| SavedSearches.SavedSearchStore.Load | internal/data/savedsearch.go:37-57 | without a file, an empty answer and nothing changes; otherwise the file's searches, most recent first, loaded |
| SavedSearches.SavedSearchStore.EnsureLoaded | internal/data/savedsearch.go:76-78 | the in-memory list becomes the list the change starts from; the store counts as loaded when it was or when the file exists |
| SavedSearches.SavedSearchStore.AddOrUpdate | internal/data/savedsearch.go:75-99 | the list becomes the updated or extended list and is written; loaded when it was or when the file existed |
| SavedSearches.SavedSearchStore.DeleteAsWritten | internal/data/savedsearch.go:101-114 | as written, the file gets the list without the name and memory keeps it; loaded when it was or when the file existed |
| SavedSearches.SavedSearchStore.Delete | internal/data/savedsearch.go:101-114 | corrected, the list without the name replaces memory and is written; loaded when it was or when the file existed |
| SavedSearches.SavedSearchStore.DeleteThenSaveAsWritten | internal/data/savedsearch.go:101-114 | as written, deleting a saved search and then saving another writes the deleted one back to the file |
| SavedSearches.SavedSearchStore.DeleteThenSave | internal/data/savedsearch.go:101-114 | corrected, a deleted search stays out of the file when another is saved next |
| JournalSyntax.DropRegexSpace | internal/data/ledger/parser.go:31 | the text after the leading run of `\s` characters: a suffix that starts with no such character |
| JournalSyntax.ParseHeader | internal/data/ledger/parser.go:54-58 | a line is a header exactly when it starts with a date text followed by a space; the date text is then its first ten characters and the description is what follows the run of spaces |
| JournalSyntax.HeaderParts | internal/data/ledger/parser.go:57-58 | the line is the date text, a run of spaces and the description, in that order |
| JournalSyntax.ParsePosting | internal/data/ledger/parser.go:36 | a line is a posting exactly when it has the posting shape (this pattern, and the 8-space one of `internal/data/parser.go`), and then the parts are those at the last '$' and the last ':' that leaves a non-empty name |
| JournalSyntax.PostingAt | internal/data/ledger/parser.go:69-72 | the parts of a posting: the number after the '$' and its optional '-', the number being digits and commas with an optional decimal part |
| JournalSyntax.SplitSign | internal/data/ledger/parser.go:36 | an optional '-' and the number after it make up the signed number |
| JournalSyntax.PostingNotSkipped | internal/data/ledger/parser.go:49-52 | a posting line is never a skipped line |
| JournalSyntax.ShapeDollarIsLast | internal/data/ledger/parser.go:36 | no '$' follows the '$' of a posting |
| JournalSyntax.Assign | internal/data/ledger/parser.go:80-89 | "expenses" and "income" set the type and the category, "assets" and "liability" the account, any other account type nothing; the date, description, amount and count never change |
| JournalSyntax.Emit | internal/data/ledger/parser.go:93-101 | an emitted transaction carries the collected amount and no account type |
| JournalSyntax.Abs | internal/data/ledger/parser.go:78 | the absolute value is non-negative and equals the value or its negation |
| JournalSyntax.RemoveCommas | internal/data/ledger/parser.go:71-72 | removing the commas of a posting number gives a plain decimal number with digits exactly when the number had some |
| JournalSyntax.PlainNumberParses | internal/data/ledger/parser.go:73-77 | a plain decimal number parses exactly when it has a digit, to a non-negative value |
| JournalSyntax.PlainUnsigned | internal/data/ledger/parser.go:73-77 | the unsigned reading of a plain number succeeds exactly when it has a digit, to a non-negative value |
| JournalSyntax.LedgerNumberParses | internal/data/ledger/parser.go:71-77 | a posting number without its commas parses exactly when it holds a digit, to a non-negative value |
| LedgerParser.SkipLine | internal/data/ledger/parser.go:49-52 | empty and comment lines leave every loop variable as it is |
| LedgerParser.UnrecognisedLine | internal/data/ledger/parser.go:104-106 | a line that is neither header nor posting is skipped without an error |
| LedgerParser.HeaderLine | internal/data/ledger/parser.go:54-65 | a header resets the posting count and sets the date and description, or fails when its date does not exist; nothing else changes |
| LedgerParser.PostingAmount | internal/data/ledger/parser.go:69-78 | the amount of a posting is the value of its number without commas, whatever the sign before it |
| LedgerParser.PostingLine | internal/data/ledger/parser.go:54-66 | a line that is a posting and no header is read as that posting |
| LedgerParser.PostingEffect | internal/data/ledger/parser.go:66-103 | a posting fails only when its number has no digit; otherwise it counts, stores the amount, sets the field its account type names, and emits when the count reaches two |
| LedgerParser.RunInvariant | internal/data/ledger/parser.go:46-107 | the loop keeps every emitted transaction without account type and with a non-negative amount, emits at most once per header, and only appends |
| LedgerParser.ParseResult | internal/data/ledger/parser.go:24-114 | the transactions of a journal have no account type and non-negative amounts, and number at most one more than the header lines |
| LedgerParser.BadDateFails | internal/data/ledger/parser.go:59-63 | a header whose date does not exist makes the whole journal an error |
| LedgerParser.ReadPosting | internal/data/ledger/parser.go:66-103 | the loop body for a posting equals the posting step of the specification |
| LedgerParser.ScanLine | internal/data/ledger/parser.go:47-106 | the loop body for one line equals the line step of the specification |
| LedgerParser.ParseJournal | internal/data/ledger/parser.go:24-114 | the loop over all lines gives the transactions, or the first error, of the specification |
| JournalParser.SkipLine | internal/data/parser.go:52-55 | empty and comment lines leave every loop variable as it is |
| JournalParser.HeaderLine | internal/data/parser.go:57-68 | a header sets the date and description and keeps the posting count, or fails when its date does not exist |
| JournalParser.PostingLine | internal/data/parser.go:57-69 | a line that is a posting and no header is read as that posting |
| JournalParser.AmountTextOf | internal/data/parser.go:74-75 | with the '$' and the commas removed, the amount group is the signed number |
| JournalParser.PostingAmount | internal/data/parser.go:74-81 | the amount is the absolute value of the signed number read, which is the value of the number without its sign |
| JournalParser.SignedAmount | internal/data/parser.go:77-81 | a '-' before an unsigned numeral changes the value read only by its sign |
| JournalParser.PostingEffect | internal/data/parser.go:69-107 | a posting fails only when its number has no digit; otherwise it counts, stores the amount, sets the field its account type names, and on the second posting emits and resets the count |
| JournalParser.RunInvariant | internal/data/parser.go:48-111 | the loop keeps one transaction per two posting lines read, with the count holding the odd one, and only appends |
| JournalParser.ParseResult | internal/data/parser.go:23-118 | a file gives half as many transactions as posting lines, whatever headers lie between |
| JournalParser.BadDateFails | internal/data/parser.go:62-65 | a header whose date does not exist makes the whole file an error |
| JournalParser.BadAmountLine | internal/data/parser.go:77-80 | a posting whose number has no digit is an error |
| JournalParser.BadAmountFails | internal/data/parser.go:77-80 | a posting whose number has no digit makes the whole file an error |
| JournalParser.FailingLine | internal/data/parser.go:48-111 | a line that fails in every state makes the whole file an error |
| JournalParser.ReadPosting | internal/data/parser.go:69-107 | the loop body for a posting equals the posting step of the specification |
| JournalParser.ScanLine | internal/data/parser.go:49-110 | the loop body for one line equals the line step of the specification |
| JournalParser.ParseJournal | internal/data/parser.go:23-118 | the loop over all lines gives the transactions, or the first error, of the specification |
| CsvConfig.FieldColumns | internal/data/csv/config.go:62-65 | the name-to-field map holds every field under its own name and nothing else |
| CsvConfig.ColumnsByName | internal/data/csv/config.go:63-65 | a map holding every field under its name, and nothing else, is the name-to-field map |
| CsvConfig.Config.Default | internal/data/csv/config.go:25-68 | the default configuration has no preset column index, every field under its name, and the default tables |
| CsvConfig.GetConfig | internal/data/csv/config.go:20-23 | each call gives a fresh default configuration |
| CsvConfig.TxnTypeTable | internal/data/csv/config.go:35-41 | "income" and "inc." read as Income, "expense", "exp." and "exps." as Expense, and the keys are lower case |
| CsvConfig.AccountTypeTable | internal/data/csv/config.go:42-55 | every account-type key is lower case and names one of the three account types |
| CsvConfig.CashIsAccountType | internal/data/csv/config.go:43 | "cash" is an account-type key |
| CsvConfig.AccountNameTable | internal/data/csv/config.go:56-60 | three account-name patterns, for Cash and Bank Account, no two of which match the same name |
| CsvRecord.Get | internal/data/csv/parser.go:34 | every field reads as a value of its own kind |
| CsvRecord.Set | internal/data/csv/parser.go:49-50 | the field set reads back the value, and no other field changes |
| CsvRecord.Convert | internal/data/csv/parser.go:35-78 | corrected for the account type, see Findings row 1: a cell that converts gives a value of its field's kind |
| CsvRecord.ConvertAccountTypeAsWritten | internal/data/csv/parser.go:43-48 | as written, every account-type cell ends in an error |
| CsvRecord.AccountTypeCellRefused | internal/data/csv/parser.go:43-48 | every cell the account-type table knows is refused as written and converted by the intended lookup |
| CsvRecord.FieldsAsWrittenOutcome | internal/data/csv/parser.go:19-79 | as written, the field loop fails whenever it meets an account-type column; without that column it is the corrected loop |
| CsvRecord.AccountTypeColumnRefused | internal/data/csv/parser.go:14-106 | as written, every record read with an account-type column fails, as the source panics; without that column the record converts as the corrected conversion does |
| CsvRecord.MatchedType | internal/data/csv/parser.go:87-93 | the type of the first pattern that matches, or none exactly when no pattern matches |
| CsvRecord.ConvertFieldsOutcome | internal/data/csv/parser.go:19-79 | the field loop succeeds exactly when no field is rejected, and then each field with a column holds its converted cell and every other field is unchanged |
| CsvRecord.AllFieldsOutcome | internal/data/csv/parser.go:19-79 | over every field, the loop succeeds exactly when no field is rejected, and sets every field that has a column |
| CsvRecord.RecordRejects | internal/data/csv/parser.go:19-31 | a record with a rejected field is an error; one that converts is a complete transaction |
| CsvRecord.RecordFields | internal/data/csv/parser.go:19-79 | every field other than the account type holds the converted cell of its column |
| CsvRecord.RecordAccountType | internal/data/csv/parser.go:81-99 | corrected, see Findings row 1: the account type is the converted cell of its column, or, without a column, the type of the first account-name pattern that matches the lower-cased account, else Credit Card |
| CsvRecord.RecordText | internal/data/csv/parser.go:49-50 | account, category and description are the cells of their columns, unchanged |
| CsvRecord.ParseDateCell | internal/data/csv/parser.go:58-72 | the layouts are tried in order until one parses the cell; the date loop equals the first-success specification |
| CsvRecord.ConvertCell | internal/data/csv/parser.go:34-78 | the conversion of one cell equals the specified conversion by its field's kind |
| CsvRecord.MatchAccountName | internal/data/csv/parser.go:87-93 | the pattern loop gives the type of the first pattern matching the name, none when no pattern matches |
| CsvRecord.ParseCsvRecord | internal/data/csv/parser.go:14-106 | corrected, see Findings row 1: the record loop, inference and validity check equal the specified record conversion |
| CsvRecord.ConvertRecordFields | internal/data/csv/parser.go:19-79 | the field loop equals the specified field conversion |
| CsvRecord.InferAccount | internal/data/csv/parser.go:81-99 | the fallback sets the type of the first matching pattern, or Credit Card, or fails on an empty table |
| CsvLoader.ResolvedColumn | internal/data/csv/loader.go:82-86 | a field gets a column exactly when some header cell names it, and then the last such cell; fields no cell names keep what they had |
| CsvLoader.FirstMissing | internal/data/csv/loader.go:88-92 | the field reported is one other than the account type without a column; none is reported only when every such field has one |
| CsvLoader.PresetIndexes | internal/data/csv/loader.go:80 | preset column indexes are used as they are, without looking at the header |
| CsvLoader.ResolvedIndexes | internal/data/csv/loader.go:80-93 | without preset indexes, the column resolution succeeds exactly when every field other than the account type is named in the header, and each named field gets its last cell |
| CsvLoader.RecordsInOrder | internal/data/csv/loader.go:100-105 | the records convert exactly when each does, into one transaction per record in record order |
| CsvLoader.LoadSorted | internal/data/csv/loader.go:51-62 | the loaded list is sorted by date and is a permutation of the transactions of all files |
| CsvLoader.FileFailureFails | internal/data/csv/loader.go:51-57 | a file that fails makes loading fail |
| CsvLoader.ConcatPrefixFails | internal/data/csv/loader.go:51-57 | once a file fails, the files after it do not change the outcome |
| CsvLoader.ResolveHeader | internal/data/csv/loader.go:82-86 | the header loop leaves in the configuration's column indexes what the resolution specification gives, and changes nothing else |
| CsvLoader.MissingColumn | internal/data/csv/loader.go:88-92 | the completeness loop reports the first field other than the account type without a column |
| CsvLoader.ParseRecords | internal/data/csv/loader.go:100-105 | the record loop gives the converted records, or the first error |
| CsvLoader.WidthChecked | internal/data/csv/loader.go:95-98 | once the columns are found, a record with another cell count than the header fails the file whatever it holds; records as wide as the header are converted one by one |
| CsvLoader.ReadCsv | internal/data/csv/loader.go:65-106 | corrected, see Findings row 1: reading a file with a fresh default configuration gives the specified column resolution, the reader's field-count check and the record conversion |
| CsvLoader.LoadTransactions | internal/data/csv/loader.go:22-63 | corrected, see Findings row 1: no file gives an empty list; otherwise the transactions of all files sorted by date, or the first error |
| AppModel.WindowMembers | internal/model/model.go:244-249 | the window keeps exactly the transactions dated from the start up to, not including, the end |
| AppModel.SliceIsWindow | internal/model/model.go:228-249 | on a date-sorted list, the slice between the two search results is the window |
| AppModel.SearchDate | internal/model/model.go:231-238 | the binary search gives the first index whose date is at or after the date: everything before is earlier, nothing after is |
| AppModel.KeepSubsequence | internal/model/model.go:266-277 | filtering leaves out transactions and keeps the order of the rest |
| AppModel.SelectedMembers | internal/model/model.go:266-277 | the search keeps exactly the transactions some sub-query selects, as an order-preserving subsequence |
| AppModel.BlankQuery | internal/model/model.go:261-271 | a blank query keeps everything, and a query whose sub-queries all lack keywords keeps nothing |
| AppModel.MatchesAnySubQuery | internal/model/model.go:269-276 | the inner loop finds a sub-query exactly when some sub-query with keywords matches the transaction |
| AppModel.SelectMatching | internal/model/model.go:266-277 | the outer loop gives the transactions some sub-query selects, in order |
| AppModel.ChartNameAllTime | internal/model/model.go:315-321 | all time is titled as a yearly chart |
| AppModel.ChartNameInjective | internal/model/model.go:315-321 | two increments give the same title exactly when they are titled by the same increment |
| AppModel.Model.UpdateDatePickerLimits | internal/model/model.go:215-226 | an empty list changes nothing; otherwise the limits become the first and last transaction dates and the range is clamped to them |
| AppModel.Model.FilterTransactions | internal/model/model.go:228-249 | on a date-sorted list, the view becomes the window of the picker's range, or an error with nothing changed when the two ends cross |
| AppModel.Model.SearchTransactions | internal/model/model.go:259-283 | the search result is the whole view for a blank query, else the view's transactions some sub-query selects |
| AppModel.AllTimeDropsLastDay | internal/ui/datepicker.go:218-220 | as written, the all-time range leaves out the transactions of the last day |
| AppModel.AllTimeShowsAll | internal/ui/datepicker.go:218-220 | with the range ending the day after the last date, all time shows every transaction |
| DatePicker.BucketWhole | internal/ui/datepicker.go:132-133 | the bucket of a date starts a bucket and ends one increment later |
| DatePicker.MaxEnd | internal/ui/datepicker.go:75-77 | the latest end exists exactly outside all time |
| DatePicker.Clamp | internal/ui/datepicker.go:230-238 | clamping is defined exactly outside all time |
| DatePicker.NextSpan | internal/ui/datepicker.go:138-149 | a next range exists only outside all time and ends no later than the latest end |
| DatePicker.PrevSpan | internal/ui/datepicker.go:151-162 | a previous range exists only outside all time and starts no earlier than the earliest start |
| DatePicker.AllTimeSpanAsWritten | internal/ui/datepicker.go:218-220 | as written, the all-time range ends at the upper limit, which the range excludes |
| DatePicker.AllTimeSpan | internal/ui/datepicker.go:218-220 | the all-time range runs from the lower limit to the day after the upper limit |
| DatePicker.ClampWhole | internal/ui/datepicker.go:230-238 | clamping keeps a whole-bucket range whole |
| DatePicker.ClampWithin | internal/ui/datepicker.go:230-238 | clamping changes a range exactly when it starts before the earliest start or ends after the latest end |
| DatePicker.NextWhole | internal/ui/datepicker.go:142-145 | moving forward keeps a whole-bucket range whole and moves it later |
| DatePicker.PrevWhole | internal/ui/datepicker.go:155-158 | moving back keeps a whole-bucket range whole and moves it earlier |
| DatePicker.NextThenPrev | internal/ui/datepicker.go:138-162 | moving forward and then back returns to a whole range within the lower limit |
| DatePicker.PrevThenNext | internal/ui/datepicker.go:138-162 | moving back and then forward returns to a whole range within the upper limit |
| DatePicker.Picker.constructor | internal/ui/datepicker.go:42-59 | the picker starts on the current month, monthly, with whole-bucket range |
| DatePicker.Picker.ClampToLimits | internal/ui/datepicker.go:230-238 | the range becomes its clamp outside all time and is left alone under all time |
| DatePicker.Picker.SetLimits | internal/ui/datepicker.go:65-69 | the limits are stored and the range becomes its clamp |
| DatePicker.Picker.Next | internal/ui/datepicker.go:138-149 | the range moves one increment later exactly when that stays within the latest end, and is otherwise unchanged |
| DatePicker.Picker.Prev | internal/ui/datepicker.go:151-162 | the range moves one increment earlier exactly when that stays at or after the earliest start, and is otherwise unchanged |
| DatePicker.Picker.UpdateIncrement | internal/ui/datepicker.go:212-228 | a new increment is stored; all time selects the corrected all-time range, any other the clamped bucket of the old start; the same increment changes nothing |
| DatePicker.Picker.SelectBucket | internal/ui/datepicker.go:222-225 | the range becomes the clamped bucket of the date and stays whole |
| DatePicker.Picker.StartBucket | internal/ui/datepicker.go:223-224 | the range becomes the bucket of the date |
| DatePicker.Picker.Reset | internal/ui/datepicker.go:127-136 | outside all time the range becomes the clamped bucket of today; under all time nothing changes |

## Left out

- Terminal rendering is not modelled: every `View`, the key dispatch in `Update`, layout, styles, charts, `SetDimensions` and the table re-render in `updateSorting`. Only the state these views show is modelled.
- File and process I/O is not modelled. This covers `filepath.Glob`, `os.Open`, the `encoding/csv` reader's parsing of quotes and line breaks, the saved-search JSON file and its paths, and the journal loaders that launch processes. Journals are lists of lines and CSV files are a header plus records. The saved-search file is an optional list of searches.
- The clock is a parameter: `time.Now` is passed as `today` to the date picker and as `now` to saved searches.
- `internal/data/loader.go`, `internal/data/ledger/loader.go`, `main.go` and `internal/data/datasource.go` are not part of this model.
- Regular expressions are replaced by hand-written recognisers of the same patterns. The header pattern, the two posting patterns and the number pattern are recognised by explicit predicates. The account-name patterns are a small datatype with a matcher.
- Numeric.ParseDecimal: reads only plain decimal numerals (an optional sign, digits, at most one '.'). `strconv.ParseFloat` also accepts exponents, hexadecimal, underscores, `Inf` and `NaN`; those cells are errors here.
- Amounts are exact reals. float64 rounding, overflow and NaN are not modelled, so `compareAny` on NaN is not either. `%.2f` is round-half-even of the exact value.
- Dates are civil dates. The time of day in CSV date-time layouts is checked, then dropped. Time zones and locations are not modelled, including the weekly bucket's use of UTC.
- Text.ToLower: lower-cases ASCII letters only. `strings.ToLower` also folds other Unicode letters.
- Money.FormatInteger: works on characters. `formatInteger` indexes bytes, which is the same for the ASCII digits it is given.
- Sorting.SortBy: a stable insertion sort stands in for `sort.Slice`. Both give a sorted permutation. `sort.Slice` may order equal elements differently, so lists with ties may come out in another order.
- Listing.Lists: ranging over a Go map is modelled as "every key once, in some order". The proved properties hold for every such order.
- CsvLoader.LoadTransactions: the files are read one after the other, in order. The source reads them concurrently and returns whichever error arrives first; here it is the first failing file's.
- Panics are failures. A panic in `parseCsvRecord` (as CsvRecord.RecordAsWritten has it, or on a missing column, short record or bad cell), in the date picker under all time, or in `filterTransactions` becomes a `Failure` result or a `false` flag with the state kept. The main CSV path uses the corrected account-type conversion, so it does not produce the account-type panic of Findings row 1.
- The reader's field-count check is modelled: `ReadAll` with the reader's default settings refuses a record whose cell count differs from the header's (CsvLoader.WidthChecked). Its error text is indicative.
- CsvRecord.ParseCsvRecord: the main path converts a known account-type cell; the source panics on every record read with an account-type column (Findings row 1). The as-written behaviour is CsvRecord.RecordAsWritten, with CsvRecord.AccountTypeColumnRefused.
- CsvLoader.ReadCsv: built on the corrected record conversion, so a file with an account-type column is read here where the source panics (Findings row 1).
- CsvLoader.LoadTransactions: built on the corrected record conversion, as CsvLoader.ReadCsv is.
- Aggregation.AggregateByAccount: uses the corrected filter, under which the total row charts every account and the name "Total" only an account of that name; the source does the reverse (Findings row 2). The as-written series is Aggregation.AggregateByAccountAsWritten.
- DatePicker.Picker.UpdateIncrement: under all time the range ends the day after maxDate. The source ends it at maxDate and so drops the last day (Findings row 3). The as-written range is DatePicker.AllTimeSpanAsWritten.
- AppModel.Model.FilterTransactions: requires the list to be sorted by date. The source assumes this without checking it (internal/model/model.go:219 and :230). The CSV loader meets it (CsvLoader.LoadSorted). The journal loaders are not part of this model; they return the transactions in journal order, which meets it only when the journal is in date order.
- In-place updates of map entries held by reference (`getAccountInfo`, `getCategoryInfo`, `aggregate`) are modelled as writing the updated entry back into a map value.
- Copies of the receiver are not modelled. Go updates a copied value receiver in `DatePickerModel.Update` and returns the copy; here the picker's methods update one object.
- `getCategoryColData` has an unreachable default case returning ""; the model's column type has no such case.
- The message-sending parts of the picker (`sendDateRangeChangedMsg`, `sendIncrementChangedMsg`) are not modelled, and neither are logging and error wrapping beyond the error's presence. Error messages are indicative.
- The two `UnmarshalJSON` validators are modelled as parsing functions from the JSON string value. The JSON decoding around them is not modelled.
- `FormatMoneyInteger` in `internal/data/money.go` is not called by the core and is not modelled.

## Findings

| source | as written | input that shows it | evidently intended | confidence | as-written member | corrected member |
|---|---|---|---|---|---|---|
| internal/data/csv/parser.go:48 | after the `AccountTypeMappings` lookup, line 48 stores `data.TransactionType(txnType)` into the `AccountType` field; reflection refuses a `TransactionType` there and panics | a CSV file with an AccountType column holding "cash" | store the looked-up value as an `AccountType` | not executed | CsvRecord.AccountTypeColumnRefused | CsvRecord.Convert |
| internal/model/aggregation.go:20 | the account chart treats the name "Total" as the total row | selecting the total row, whose name is "Total Accounts", charts only accounts of that literal name | compare with `AccountNameTotal`, as `internal/ui/insights.go:40` does | not executed | Aggregation.TotalRowChartsNothing | Aggregation.TotalRowChartsAll |
| internal/ui/datepicker.go:218-220 | all time sets the exclusive end date to the last transaction's date | a list whose last transaction is dated 2025-03-31: under all time, that transaction is outside the window | end the range the day after the upper limit | not executed | AppModel.AllTimeDropsLastDay | AppModel.AllTimeShowsAll |
| internal/data/savedsearch.go:101-114 | `DeleteSavedSearch` writes the list without the name but keeps the in-memory list | delete "a", then save "b": the file holds "a" again | replace the in-memory list with the filtered one | not executed | SavedSearches.DeletedSearchReturns | SavedSearches.DeletedSearchStaysDeleted |
| internal/ui/accounttable.go:139-143 | descending order is `!(a < b)`, which holds both ways for equal column text: the relation is reflexive, so not a strict order | two accounts with equal incomes sorted by income, descending: each is "less" than the other | a strict order, `b < a` | not executed; whether `sort.Slice` misorders any input with this relation is not shown | AccountTable.RowLessAsWrittenNotStrict | AccountTable.RowLessAsymmetric |
| internal/ui/sortabletable.go:249-250 | descending order is `!inOrder`, which holds for a cell compared with itself: the relation is reflexive, so not a strict order | any two equal cells sorted descending: each is "less" than the other | a strict order, the ascending test with its arguments swapped | not executed; whether `sort.Slice` misorders any input with this relation is not shown | SortableTable.CompareAnyDescReflexive | SortableTable.CompareStrictIsStrict |
