# Ting Thu Chi in Dafny

A Dafny model of the logic of Ting Thu Chi. Ting Thu Chi is a personal
income-and-expense tracker written in TypeScript with Next.js and React. Its
records are transactions and savings movements, both in whole đồng. They are
stored in Google Sheets or an Excel workbook. The model covers:

- **The dashboard analytics.** These are the yearly report (`processYearlyData`),
  the KPI cards, the insight list, the heat map, key metrics, top expenses, the
  daily table, the breakdowns and trend data of the home page, and the year
  summary screen.
- **The data hooks.** These are the filtering, statistics and grouping of
  `useTransactions`, the savings statistics of `useSavings` with its response
  guard, and the persisted month filter of `useDateFilter`.
- **The storage layer.** This is the row parsing, row mapping, row search,
  update merge and category ID of the Google Sheets store. It also covers the
  ID back-fill and the add, update and delete operations of the Excel store on
  its row array, and the category normalisation, sheet choice and export
  formatting of the workbook parser.
- **The Telegram notification texts** and the configuration guard.
- **The screens' state machines.** These are the pagers of the tables and
  modals, the filter bar, the transactions, savings and categories pages, the
  month picker, the transaction and saving forms, the PIN login and password
  change, and the colour theme.

The modelling follows three rules:

- Code that only computes is modelled by functions, with lemmas about them.
- Code that updates state step by step is modelled by methods with loops and
  invariants.
- React components and hooks whose handlers change their state are modelled by
  classes. Their fields are that state, including what the component writes to
  `localStorage` or `sessionStorage`. Each handler is one method.

`Array.prototype.sort` with a numeric comparator is modelled as a stable sort.
Dictionaries built by `forEach` are association lists in insertion order.
Dates are calendar fields plus milliseconds since midnight, ordered by their
instant. The current time, generated IDs and the results of network calls are
parameters.

## Model

| member | source | states |
|---|---|---|
| `SheetCells.TextOr` | app/src/lib/google-sheets.ts:109-113 | `cell \|\| fallback`: the cell's text when it is truthy, the fallback otherwise, so a non-empty fallback is never replaced by an empty text |
| `SheetCells.ParseAmountBasics` | app/src/lib/google-sheets.ts:59-63 | parseAmount returns a number cell unchanged and reads an empty or missing cell as 0 |
| `SheetCells.GroupedAmountRoundTrip` | app/src/lib/google-sheets.ts:65-78 | the Vietnamese form of n (digits grouped by dots, with or without " đ") reads back as n |
| `SheetCells.CommaAmount` | app/src/lib/google-sheets.ts:73-78 | a text of digits and commas with a digit reads as the value of its digits |
| `SheetCells.NonNumericAmount` | app/src/lib/google-sheets.ts:78 | a text that does not start with a digit, sign, comma, đ or white space reads as 0 (`parseFloat(...) \|\| 0`) |
| `SheetCells.UngroupGrouped` | app/src/lib/google-sheets.ts:70-72 | the dot-grouped digits of a number match `^\d{1,3}(\.\d{3})+$` or have no dot, and removing the dots gives the digits back |
| `SheetCells.UngroupCommas` | app/src/lib/google-sheets.ts:73-76 | a text of digits and commas is ungrouped by removing every comma |
| `SheetCells.CleanGrouped` | app/src/lib/google-sheets.ts:66 | stripping đ and white space leaves grouped digits unchanged and removes a trailing " đ" |
| `SheetCells.DigitsNumber` | app/src/lib/google-sheets.ts:78 | a run of digits is read as its value |
| `SheetCells.FirstWithSlash` | app/src/lib/google-sheets.ts:49 | `parts.find(p => p.includes('/'))`: the piece found contains '/', and when none is found no piece does |
| `SheetCells.WordsApart` | app/src/lib/google-sheets.ts:48 | a separator between two texts splits them apart: the pieces are those of the first followed by those of the second |
| `SheetCells.WordsSingle` | app/src/lib/google-sheets.ts:48 | a non-empty text without separator is its one piece |
| `SheetCells.SplitApart` | app/src/lib/google-sheets.ts:51 | `split('/')` of two texts joined by the separator is the split of each, concatenated |
| `SheetCells.DmySplit` | app/src/lib/google-sheets.ts:51 | a dd/MM/y token splits on '/' into its three pieces |
| `SheetCells.DmyPieces` | app/src/lib/google-sheets.ts:51-52 | `datePart.split('/').map(Number)` of a formatted dd/MM/y token gives its day, month and year |
| `SheetCells.PaddedNumber` | app/src/lib/google-sheets.ts:38-40 | a zero-padded number is a non-empty run of digits that Number reads back as the number |
| `SheetCells.YearNumber` | app/src/lib/google-sheets.ts:38-40 | the year as formatted (four digits, or a minus sign and digits) holds no separator and reads back as the year |
| `SheetCells.DmyText` | app/src/lib/google-sheets.ts:38-40 | formatDateForSheet's text is non-empty, holds '/', no split separator, and its pieces are the date's day, month and year |
| `SheetCells.DmyRoundTrip` | app/src/lib/google-sheets.ts:38-56 | parseSheetDate on formatDateForSheet's text gives back the date's day, month and year |
| `SheetCells.PartsDate` | app/src/lib/google-sheets.ts:52 | `new Date(year, month - 1, day)` on parts naming a day of the calendar is that day at local midnight |
| `SheetCells.SheetDayBuilt` | app/src/lib/google-sheets.ts:48-52 | the parts written for a date name a day exactly when it is a calendar date, and the constructor then gives midnight of that same day |
| `SheetCells.DmyCommaTimeRead` | app/src/lib/google-sheets.ts:47-53 | a "dd/MM/yyyy, HH:mm" cell reads as the day, month and year: the time piece is skipped because it holds no '/' |
| `SheetCells.CommaTimeWords` | app/src/lib/google-sheets.ts:48 | a comma and a space between two separator-free texts split into exactly those two pieces |
| `SheetCells.CollectRows` | app/src/lib/google-sheets.ts:103-116 | the loop over the data rows that skips some and pushes a record for the others builds exactly ReadRows |
| `SheetCells.ReadRowsFacts` | app/src/lib/google-sheets.ts:103-116 | each accepted row gives its record, every record comes from an accepted row, and with every row accepted none is lost |
| `SheetCells.FindRow` | app/src/lib/google-sheets.ts:180-186 | the search loop from row 1 returns -1 exactly when no data row holds the ID, and otherwise the first row that does |
| `SheetCells.FirstMatchFacts` | app/src/lib/google-sheets.ts:181-186 | the row found is a data row holding the ID with none before it; none is found exactly when no data row holds the ID |
| `GoogleSheets.GetAllTransactions` | app/src/lib/google-sheets.ts:82-122 | getAll fails with the configuration message when no spreadsheet ID is set, and otherwise returns the transactions read from `values` |
| `GoogleSheets.ReadTransactionsFacts` | app/src/lib/google-sheets.ts:94-121 | exactly the data rows with a date or an amount give a transaction, each with a non-empty category, and the list is sorted newest first |
| `GoogleSheets.ReadTransactionsMembers` | app/src/lib/google-sheets.ts:99-116 | a transaction is listed if and only if it is read from a data row with a date or an amount |
| `GoogleSheets.AddTransaction` | app/src/lib/google-sheets.ts:124-158 | add fails without a spreadsheet ID; otherwise it appends the dd/MM/yyyy, amount, category, description, type label and new ID row and returns the draft with the new ID |
| `GoogleSheets.FormatDmyPlain` | app/src/lib/google-sheets.ts:38-40 | the formatted date is non-empty, truthy, and does not start with an apostrophe |
| `GoogleSheets.AddedRowReadsBack` | app/src/lib/google-sheets.ts:104-115 | the row add appends is read back by getAll as the transaction add returned, with 'Khác' for an empty category and the date `toDate` builds from the day's parts written |
| `GoogleSheets.AddedRowSameDay` | app/src/lib/google-sheets.ts:48-52 | with a conversion that builds local midnight of the day the parts name, as `new Date(year, month - 1, day)` does, the appended transaction reads back on the day written, at midnight |
| `GoogleSheets.LabelRoundTrip` | app/src/lib/google-sheets.ts:114 | the type label written for a kind ('Thu nhập' or 'Chi phí') reads back as that kind |
| `GoogleSheets.StoredTransactionRow` | app/src/lib/google-sheets.ts:133-151 | the sheet keeps an appended transaction row as written when no text starts with an apostrophe |
| `GoogleSheets.AppendedIsListed` | app/src/lib/google-sheets.ts:94-121 | a row with a date or an amount appended below the header is listed by getAll |
| `GoogleSheets.MergeThenRead` | app/src/lib/google-sheets.ts:196-203 | reading the row update writes gives the old transaction with exactly the supplied fields replaced (date and type when given, amount and description when not undefined, category when non-empty) and the ID searched for |
| `GoogleSheets.UpdateRow` | app/src/lib/google-sheets.ts:160-213 | update checks the configuration, then that the sheet has values, then writes the merged cells at the 1-based number of the first data row holding the ID, failing with "... not found" exactly when no data row holds it |
| `GoogleSheets.FirstTabRejected` | app/src/lib/google-sheets.ts:228-234 | as written, a tab whose sheet ID is 0 (the first tab) is rejected although it was found; the intended test accepts every tab the as-written test accepts |
| `GoogleSheets.DeleteRow` | app/src/lib/google-sheets.ts:215-278 | delete checks the configuration, that the tab was found, that it has values, and removes the 0-based index of the first data row holding the ID, failing exactly when no data row holds it |
| `GoogleSheets.GetAllSavings` | app/src/lib/google-sheets.ts:287-320 | the saving getAll fails without a spreadsheet ID and otherwise returns the savings read from `values` |
| `GoogleSheets.ReadSavingsFacts` | app/src/lib/google-sheets.ts:299-319 | exactly the data rows with a date or an amount give a saving, and the list is newest first |
| `GoogleSheets.AddSaving` | app/src/lib/google-sheets.ts:322-346 | the saving add fails without a spreadsheet ID; otherwise it appends the apostrophe-prefixed date, amount, note, type label and new ID and returns the draft with the new ID |
| `GoogleSheets.AddedSavingReadsBack` | app/src/lib/google-sheets.ts:305-315 | once the sheet drops the apostrophe, the appended saving row is read back as the saving add returned, its date being what `toDate` builds from the day's parts written |
| `GoogleSheets.AddedSavingSameDay` | app/src/lib/google-sheets.ts:48-52 | with a conversion that builds local midnight of the day the parts name, the appended saving reads back on the day written, at midnight |
| `GoogleSheets.StoredSavingRow` | app/src/lib/google-sheets.ts:329-343 | the sheet keeps the appended saving's date text without its apostrophe and every other cell as written |
| `GoogleSheets.MergeSavingThenRead` | app/src/lib/google-sheets.ts:370-377 | reading the stored row the saving update writes gives the old saving with exactly the supplied fields replaced; an empty note counts as supplied |
| `GoogleSheets.MergedSavingCells` | app/src/lib/google-sheets.ts:371-377 | the cells kept for a merged saving row: each supplied field's cell, otherwise the old kept cell, and the ID |
| `GoogleSheets.GetAllCategories` | app/src/lib/google-sheets.ts:447-478 | the category getAll fails without a spreadsheet ID and otherwise returns the categories read from `values` |
| `GoogleSheets.ReadCategoriesFacts` | app/src/lib/google-sheets.ts:459-477 | exactly the data rows with a name give a category, each with a non-empty name and colour, in sheet order |
| `GoogleSheets.AddCategory` | app/src/lib/google-sheets.ts:480-516 | the category add fails without a spreadsheet ID; otherwise it appends the new ID, name, group label and colour (the default when empty) and returns the draft with the new ID |
| `GoogleSheets.AddedCategoryReadsBack` | app/src/lib/google-sheets.ts:465-475 | an appended category is read back exactly when its name is non-empty, as the category returned, with the default colour for an empty one |
| `GoogleSheets.MergeCategoryThenRead` | app/src/lib/google-sheets.ts:542-547 | reading the row the category update writes replaces name and colour only when given non-empty and the group when given; the colour is never empty |
| `GoogleSheets.NextCategoryId` | app/src/lib/google-sheets.ts:491-498 | the scan over the ID column returns the decimal text of one more than the largest numeric ID below the header |
| `GoogleSheets.MaxIdFacts` | app/src/lib/google-sheets.ts:493-497 | the maximum bounds every numeric ID below the header and is one of them unless it is 0 |
| `GoogleSheets.NextIdFacts` | app/src/lib/google-sheets.ts:493-498 | the new ID reads back as the maximum plus one, is "1" when there is no numeric ID, exceeds every numeric ID, and is held by no data row |
| `GoogleSheets.AllBelowDiffer` | app/src/lib/google-sheets.ts:493-498 | when every numeric ID is below m, no data row's ID cell is the text of m |
| `GoogleSheets.BelowDiffers` | app/src/lib/google-sheets.ts:495-496 | a cell with no numeric value or a value below m is not the text of m |
| `ExcelDb.BackFill` | app/src/lib/excel-db.ts:63-67 | filling in missing IDs keeps the number of rows |
| `ExcelDb.ExcelTransactions` | app/src/lib/excel-db.ts:63-76 | getAll maps every row of the sheet to one transaction, in sheet order |
| `ExcelDb.BackFillFacts` | app/src/lib/excel-db.ts:61-76 | after the back-fill every row has a truthy ID, a row that had one is unchanged, no other field changes, and a second back-fill changes nothing |
| `ExcelDb.FindIndex` | app/src/lib/excel-db.ts:125 | `findIndex(row => row.ID === id)`: the index found holds the ID with none before it; none is found exactly when no row holds it |
| `ExcelDb.ExcelStore.constructor` | app/src/lib/excel-db.ts:56-59 | the store holds the rows of the first sheet |
| `ExcelDb.ExcelStore.GetAll` | app/src/lib/excel-db.ts:56-91 | getAll returns every row as a transaction; it reports changes exactly when some row lacked an ID, and the sheet then holds the back-filled rows only if the save succeeds |
| `ExcelDb.ExcelStore.Add` | app/src/lib/excel-db.ts:93-118 | add puts the new row in front of all old rows and returns the draft with the new ID |
| `ExcelDb.ExcelStore.Update` | app/src/lib/excel-db.ts:120-142 | update patches the first row holding the ID and nothing else; with no such row it reports "Transaction with ID … not found" and changes nothing |
| `ExcelDb.ExcelStore.Delete` | app/src/lib/excel-db.ts:144-159 | delete succeeds exactly when some row holds the ID and then keeps exactly the other rows; otherwise it reports the error and changes nothing |
| `ExcelDb.NewRowReadsBack` | app/src/lib/excel-db.ts:63-76 | an added row keeps its ID on the next read and reads as the transaction add returned, with 'Khác' for an empty category and the date `toDate` builds from the day's parts written |
| `ExcelDb.NewRowSameDay` | app/src/lib/excel-db.ts:28-33 | with a conversion that builds local midnight of the day the parts name, as `new Date(year, month - 1, day)` does, an added row reads back on the day written, at midnight |
| `ExcelDb.PatchThenRead` | app/src/lib/excel-db.ts:128-134 | reading a patched row gives the transaction read before with exactly the supplied fields replaced and its ID kept |
| `ExcelDb.DeleteFacts` | app/src/lib/excel-db.ts:150 | after the filter no row holds the ID, every row without it stays, and the kept rows are in their old order |
| `ExcelParser.Collapse` | app/src/lib/excel-parser.ts:83-90 | dropping each word equal to the one before never lengthens the list and keeps its last word |
| `ExcelParser.CollapseFacts` | app/src/lib/excel-parser.ts:82-90 | after the loop no two neighbouring words are equal, exactly the same words occur, and a list without neighbouring repeats is unchanged |
| `ExcelParser.CollapseNoRepeats` | app/src/lib/excel-parser.ts:86-90 | no two neighbouring kept words are equal |
| `ExcelParser.CollapseMembers` | app/src/lib/excel-parser.ts:86-90 | a word is kept somewhere if and only if it occurs in the input |
| `ExcelParser.CollapseUnchanged` | app/src/lib/excel-parser.ts:86-90 | a list without neighbouring repeats is kept whole |
| `ExcelParser.CollapseWords` | app/src/lib/excel-parser.ts:84-90 | the loop that pushes a word when it is the first or differs from the one before computes Collapse |
| `ExcelParser.NormalizedCategory` | app/src/lib/excel-parser.ts:79-80 | an empty category normalizes to 'Khác' |
| `ExcelParser.NormalizeCategory` | app/src/lib/excel-parser.ts:79-103 | normalizeCategory computes NormalizedCategory: split on spaces, collapse repeats, join, and keep the first half when the trimmed halves agree |
| `ExcelParser.SplitRepeat` | app/src/lib/excel-parser.ts:83 | splitting a word repeated k times with spaces gives the k words back |
| `ExcelParser.CollapseRepeat` | app/src/lib/excel-parser.ts:86-90 | k copies of a word collapse to the word |
| `ExcelParser.RepeatedWord` | app/src/lib/excel-parser.ts:82-102 | a word written any number of times over normalizes as the word written once |
| `ExcelParser.HalvedDoubled` | app/src/lib/excel-parser.ts:93-100 | for a phrase written twice with a space between, the trimmed halves agree and the first half is the phrase |
| `ExcelParser.DoubledPhrase` | app/src/lib/excel-parser.ts:92-100 | a two-fold phrase such as "Nấu ăn/siêu thị Nấu ăn/siêu thị" normalizes to the phrase |
| `ExcelParser.ImportCategory` | app/src/lib/excel-parser.ts:79-83 | the XLSX reader's category cell is normalized when it is text, becomes 'Khác' when it is missing or 0, and throws the `category.split` TypeError exactly when it is a non-zero number |
| `ExcelParser.ParseExcelData` | app/src/lib/excel-parser.ts:40-54 | the import fails with the TypeError exactly when some row's category cell is a non-zero number; otherwise every row of the first sheet gives one transaction, in order, each with its own fresh ID and its category cell normalized |
| `ExcelParser.NumericCategoryFails` | app/src/lib/excel-parser.ts:79-83 | a sheet with a category cell of 2024 anywhere fails the whole import, while a 0 or a missing category becomes 'Khác' |
| `ExcelParser.CategorySheet` | app/src/lib/excel-parser.ts:59-62 | the sheet found is the first whose name is "Category" in any case or "Danh mục"; none is found exactly when no sheet is so named |
| `ExcelParser.ParseCategories` | app/src/lib/excel-parser.ts:56-77 | without a category sheet the import gives no category; otherwise one category per row of that sheet |
| `ExcelParser.Export` | app/src/lib/excel-parser.ts:115-145 | the export writes one row per transaction, and a category sheet exactly when the given (else stored) categories are non-empty, one row per category |
| `ExcelParser.ClockText` | app/src/lib/excel-parser.ts:120 | the exported "HH:mm" piece holds no slash and no separator |
| `ExcelParser.ExportDmy` | app/src/lib/excel-parser.ts:120 | the exported dd/MM/y piece is one word with its slashes, naming the day, month and year |
| `ExcelParser.ClockThenDay` | app/src/lib/excel-parser.ts:120 | in "HH:mm dd/MM/y" the day is the first piece with a slash |
| `ExcelParser.ExportDateRead` | app/src/lib/excel-parser.ts:120 | the exported date text reads back through the store's date reader as the day written |
| `ExcelParser.ExportThenRead` | app/src/lib/excel-parser.ts:119-125 | an exported row read by the Excel store keeps amount, description and type, its category ('Khác' for an empty one), gets the generated ID, and has the date `toDate` builds from the day's parts written: the same day, at midnight, for a conversion that builds local midnight of the day the parts name |
| `ExcelParser.ExportSheetNames` | app/src/lib/excel-parser.ts:128-140 | the exported category sheet's name is recognised on import and the transaction sheet's is not |
| `ExcelParser.ExportedCategoriesRead` | app/src/lib/excel-parser.ts:56-77 | an exported category sheet is found again on import with the same IDs, names and groups, in order, and a new colour |
| `ExcelParser.ExportThenImport` | app/src/lib/excel-parser.ts:40-54 | export then import succeeds, since every exported category is text, and gives back each transaction's amount, description and type, in order, with its category normalized and a new ID |
| `ExcelParser.CategoryStorage.constructor` | app/src/lib/excel-parser.ts:147-159 | the storage holds what local storage has under the category key |
| `ExcelParser.CategoryStorage.AddCategoryIfNotExists` | app/src/lib/excel-parser.ts:166-180 | the stored list with the new category appended is saved exactly when the name is non-empty, not 'Khác' and not yet present in any case; otherwise storage is left alone |
| `ExcelParser.AddIsIdempotent` | app/src/lib/excel-parser.ts:166-180 | after an add the name is present, so adding it again, in any case, changes nothing; a real add grows the list by one |
| `UseTransactions.KeepMeetsAll` | app/src/hooks/useTransactions.ts:97-111 | the filter callback keeps a transaction exactly when it meets every supplied criterion: no earlier than the start, no later than the end, of the chosen type unless 'all', in the chosen category, and, when there is a search text, containing it in its description or its category once both are lowered as Text.Lower lowers |
| `UseTransactions.SearchIgnoresCase` | app/src/hooks/useTransactions.ts:104-107 | the search ignores case: a query and any query that lowers alike keep exactly the same transactions |
| `UseTransactions.SmallQueryFindsCapitals` | app/src/hooks/useTransactions.ts:104-107 | the query "đi lại" finds the category "Đi lại", so a transaction of that category passes the search |
| `UseTransactions.FilterTransactionsFacts` | app/src/hooks/useTransactions.ts:95-114 | the filtered list holds exactly the transactions of the list that meet every criterion, in their original order |
| `UseTransactions.NoFilterKeepsAll` | app/src/hooks/useTransactions.ts:97-111 | a filter with no criterion keeps the whole list |
| `UseTransactions.EmptyCriteria` | app/src/hooks/useTransactions.ts:99-103 | an empty search text, an empty category and the type 'all' constrain nothing, as the falsy tests make them |
| `UseTransactions.StatsFacts` | app/src/hooks/useTransactions.ts:117-135 | income and expense split the list's whole amount, the balance is their difference, the count is the list's length, and calling with no list is calling with the full list |
| `UseTransactions.GetCategoryBreakdown` | app/src/hooks/useTransactions.ts:138-154 | the loop over the selected transactions produces the grouped and ranked breakdown |
| `UseTransactions.TotalPairs` | app/src/hooks/useTransactions.ts:145-147 | the amounts added into the per-category record are the selected transactions' whole amount |
| `UseTransactions.SumRows` | app/src/hooks/useTransactions.ts:149-150 | turning the record's entries into rows keeps their total |
| `UseTransactions.RowsDistinct` | app/src/hooks/useTransactions.ts:149-150 | the rows of a record with distinct keys have distinct categories |
| `UseTransactions.GroupedRows` | app/src/hooks/useTransactions.ts:144-150 | before ranking there is one row for each category used, holding the sum of that category's amounts |
| `UseTransactions.RankedRowsSound` | app/src/hooks/useTransactions.ts:151 | reordering the rows keeps every row a used category with that category's sum |
| `UseTransactions.RankedRowsComplete` | app/src/hooks/useTransactions.ts:151 | reordering the rows keeps a row for every category used |
| `UseTransactions.BreakdownRows` | app/src/hooks/useTransactions.ts:138-154 | the breakdown has exactly one row per category used by the transactions of the chosen type (all of them without a type), each holding that category's sum |
| `UseTransactions.BreakdownRanked` | app/src/hooks/useTransactions.ts:149-151 | the breakdown is ordered by amount, largest first, and its amounts add up to the selected transactions' total |
| `UseTransactions.WeekOfMonth` | app/src/hooks/useTransactions.ts:168 | `Math.ceil(day / 7)` is a week from 1 to 5 whose seven days contain the day |
| `UseTransactions.GetTransactionsByPeriod` | app/src/hooks/useTransactions.ts:157-188 | the loop visits the transactions in order and books each under its day, week or month key |
| `UseTransactions.HasKeyedSnoc` | app/src/hooks/useTransactions.ts:161-174 | after one more transaction, the keys in use are the earlier ones plus that transaction's key |
| `UseTransactions.KeyedTotalAbsent` | app/src/hooks/useTransactions.ts:174-182 | a key no transaction falls under has nothing booked to it |
| `UseTransactions.KeyGroupsKeys` | app/src/hooks/useTransactions.ts:159-185 | the grouping has one entry per key, and a key has an entry exactly when some transaction falls under it |
| `UseTransactions.KeyGroupsFind` | app/src/hooks/useTransactions.ts:159-185 | each key's entry holds the income and the expense booked under that key, and a key nobody falls under has no entry |
| `UseTransactions.KeyGroupsStep` | app/src/hooks/useTransactions.ts:178-182 | one more transaction adds its amount to the income measure if it is income and to the expense measure otherwise |
| `UseTransactions.KeyGroupsSums` | app/src/hooks/useTransactions.ts:159-185 | the per-key incomes add up to the total income, and the per-key expenses to the total expense |
| `Telegram.MessageRequest` | app/src/lib/telegram.ts:10-31 | a request is made exactly when both the token and the chat ID are set and not empty, to the Bot API's sendMessage URL with the token in it, carrying the chat ID, the message and the HTML parse mode |
| `Telegram.SendTelegramMessage` | app/src/lib/telegram.ts:10-44 | without configuration no request is made and the error says so; otherwise success is exactly an ok response, a non-ok response's body or a thrown error's text becomes the error, and the result succeeds exactly when it carries no error |
| `Telegram.SignedGrouped` | app/src/lib/telegram.ts:73 | a negative balance is written as a minus sign in front of the grouped magnitude |
| `Telegram.SignedGroupedParse` | app/src/lib/telegram.ts:73 | the grouped balance, its sign included, reads back as the balance |
| `Telegram.NegativeGroupedParse` | app/src/lib/telegram.ts:73 | a minus sign in front of a grouped number reads back as the negated number |
| `Telegram.ShownDescription` | app/src/lib/telegram.ts:62 | `description \|\| 'Không có mô tả'`: a non-empty description is shown as it is and an empty one is replaced, so the text shown is never empty |
| `Telegram.TransactionMessageStart` | app/src/lib/telegram.ts:54-62 | the transaction message starts with the type's emoji, a space and the type's sign, followed by the grouped amount, which reads back as the amount, and the đồng sign |
| `Telegram.HeadlineEnding` | app/src/lib/telegram.ts:62 | the first line ends with the description, or with the placeholder when there is none |
| `Telegram.TransactionMessageLines` | app/src/lib/telegram.ts:57-62 | without line breaks in the description and the category the message is exactly two lines: the first ends with the shown description, and the second is the day and month with the category in parentheses |
| `Telegram.NoteSuffix` | app/src/lib/telegram.ts:81-83 | the note in parentheses is left out exactly when the note is empty |
| `Telegram.SavingMessageLines` | app/src/lib/telegram.ts:66-85 | with a note that holds no line break the saving message is three lines: the deposit or withdrawal header, the amount line and the balance line |
| `Telegram.SavingAmountLineFacts` | app/src/lib/telegram.ts:81-83 | the amount line starts with the type's sign; the grouped amount after it reads back as the amount and is closed by the đồng sign; the line goes on past that exactly when there is a note |
| `Telegram.SavingBalanceLineFacts` | app/src/lib/telegram.ts:73-83 | the balance line ends with the signed grouped balance, which reads back as the balance, followed by the đồng sign |
| `YearlyAnalytics.IncomeSlot` | app/src/components/year-summary/YearlyAnalytics.ts:57-59 | an income adds its amount to the income of its own month's slot and changes no other slot |
| `YearlyAnalytics.ExpenseSlot` | app/src/components/year-summary/YearlyAnalytics.ts:70-72 | an expense adds its amount to the expense of its own month's slot and changes no other slot |
| `YearlyAnalytics.IncomeStep` | app/src/components/year-summary/YearlyAnalytics.ts:57-68 | an income adds one entry to the income categories, none to the expense categories or the days, and replaces the biggest income only when there is none yet or its amount is strictly larger |
| `YearlyAnalytics.ExpenseStep` | app/src/components/year-summary/YearlyAnalytics.ts:70-85 | an expense adds one entry to the expense categories and one to its day, none to the income categories, and replaces the biggest expense only when there is none yet or its amount is strictly larger |
| `YearlyAnalytics.VisitIncome` | app/src/components/year-summary/YearlyAnalytics.ts:57-68 | one visit of an income updates the income total, its month, its category, the biggest income and the income count, and nothing on the expense side |
| `YearlyAnalytics.VisitExpense` | app/src/components/year-summary/YearlyAnalytics.ts:70-85 | one visit of an expense updates the expense total, its month, its category, its day, the biggest expense and the expense count, and nothing on the income side |
| `YearlyAnalytics.TallyTotals` | app/src/components/year-summary/YearlyAnalytics.ts:51-86 | after the pass the totals are the year's income and expense amounts and the counts are the numbers of incomes and of expenses |
| `YearlyAnalytics.TallyMonths` | app/src/components/year-summary/YearlyAnalytics.ts:41-86 | after the pass month slot j holds the income and the expense booked in month j + 1 |
| `YearlyAnalytics.TallyGroups` | app/src/components/year-summary/YearlyAnalytics.ts:42-84 | after the pass the category records and the daily record are the groupings of the visited entries |
| `YearlyAnalytics.TallyBiggest` | app/src/components/year-summary/YearlyAnalytics.ts:45-80 | after the pass the biggest transactions are the running maxima kept by a strict comparison |
| `YearlyAnalytics.TallyOfSpec` | app/src/components/year-summary/YearlyAnalytics.ts:38-86 | the accumulation loop computes every accumulator's reference definition |
| `YearlyAnalytics.AddTransaction` | app/src/components/year-summary/YearlyAnalytics.ts:51-86 | the loop body applied to the array of monthly rows updates the accumulators and that transaction's month in place |
| `YearlyAnalytics.AccumulateYear` | app/src/components/year-summary/YearlyAnalytics.ts:38-86 | the forEach over the year's transactions leaves the twelve monthly rows and the accumulators as the fold computes them |
| `YearlyAnalytics.FillNet` | app/src/components/year-summary/YearlyAnalytics.ts:89-91 | the second loop sets every month's net to its income less its expense, in place |
| `YearlyAnalytics.SlotsWithNet` | app/src/components/year-summary/YearlyAnalytics.ts:41-91 | filling in net turns the accumulated slots into the monthly rows |
| `YearlyAnalytics.ProcessYearlyData` | app/src/components/year-summary/YearlyAnalytics.ts:34-152 | the summary computed step by step is the year's report |
| `YearlyAnalytics.YearSelection` | app/src/components/year-summary/YearlyAnalytics.ts:36 | the year's transactions are exactly the input transactions dated in that year |
| `YearlyAnalytics.YearTotals` | app/src/components/year-summary/YearlyAnalytics.ts:94-143 | income and expense make up the year's whole amount, net income is their difference, and the number of transactions is the number of incomes plus the number of expenses |
| `YearlyAnalytics.RowIncomeStep` | app/src/components/year-summary/YearlyAnalytics.ts:59 | one more transaction raises the monthly incomes' sum by its amount exactly when it is an income |
| `YearlyAnalytics.RowExpenseStep` | app/src/components/year-summary/YearlyAnalytics.ts:72 | one more transaction raises the monthly expenses' sum by its amount exactly when it is an expense |
| `YearlyAnalytics.MonthsAddUp` | app/src/components/year-summary/YearlyAnalytics.ts:59-72 | the twelve monthly incomes add up to the total income, and the monthly expenses to the total expense |
| `YearlyAnalytics.YearMonths` | app/src/components/year-summary/YearlyAnalytics.ts:41-131 | the report has twelve monthly rows, row j is month j + 1 with net equal to income less expense, and the rows add up to the year's totals |
| `YearlyAnalytics.CategoryEntriesFacts` | app/src/components/year-summary/YearlyAnalytics.ts:62-75 | the entries of a kind carry, per category, that category's total, name exactly the categories used by that kind, and add up to the kind's total |
| `YearlyAnalytics.ReportGroups` | app/src/components/year-summary/YearlyAnalytics.ts:125-150 | the report's category records and heatmap are the groupings of the year's entries, and its totals are the year's income and expense |
| `YearlyAnalytics.CategoryGroups` | app/src/components/year-summary/YearlyAnalytics.ts:62-75 | the per-category record of a kind has one entry per category used by that kind, each that category's sum, all adding up to the kind's total |
| `YearlyAnalytics.YearCategories` | app/src/components/year-summary/YearlyAnalytics.ts:42-133 | the report's category records have one entry per category used in the year by that kind, each holding the category's total, and add up to the report's income or expense total |
| `YearlyAnalytics.DayEntriesFacts` | app/src/components/year-summary/YearlyAnalytics.ts:84 | the daily entries carry, per day, that day's expense total, name exactly the days with an expense, and add up to the total expense |
| `YearlyAnalytics.DayGroups` | app/src/components/year-summary/YearlyAnalytics.ts:44-84 | the daily record has one entry per day with an expense, each the day's total, all adding up to the total expense |
| `YearlyAnalytics.YearHeatmap` | app/src/components/year-summary/YearlyAnalytics.ts:44-150 | the heatmap has one entry per day of the year with an expense, each that day's expense total, and the entries add up to the year's expense |
| `YearlyAnalytics.BiggestFacts` | app/src/components/year-summary/YearlyAnalytics.ts:65-80 | the biggest transaction of a kind is missing exactly when there is none of that kind, and otherwise is the first one with the largest amount |
| `YearlyAnalytics.YearBiggest` | app/src/components/year-summary/YearlyAnalytics.ts:45-142 | the report's biggest income and biggest expense are missing exactly when the year has none of that kind, and otherwise are the year's first transaction of that kind with the largest amount |
| `YearlyAnalytics.TopExpenseCategoriesFacts` | app/src/components/year-summary/YearlyAnalytics.ts:98-105 | the top expense categories are the first min(10, categories) shares, largest first, none smaller than a share left out, each with its category's total and its percentage of the total expense; when the categories add up to a positive total and all of them fit in the ten shown, the percentages add up to 100 |
| `YearlyAnalytics.TopExpenseMembers` | app/src/components/year-summary/YearlyAnalytics.ts:98-105 | each top expense category is one of the shares, with its category's total and its percentage |
| `YearlyAnalytics.IncomeSourcesFacts` | app/src/components/year-summary/YearlyAnalytics.ts:107-113 | the income sources are all the income shares, largest first, and when they add up to a positive total their percentages add up to 100 |
| `YearlyAnalytics.SharesPercentSum` | app/src/components/year-summary/YearlyAnalytics.ts:98-103 | the percentages of the shares add up to the share of the entries' sum in the total |
| `YearlyAnalytics.SortSharesPercentSum` | app/src/components/year-summary/YearlyAnalytics.ts:98-104 | ranking the shares does not change the sum of their percentages |
| `YearlyAnalytics.SharesSumTo100` | app/src/components/year-summary/YearlyAnalytics.ts:98-103 | when the entries add up to a positive total, the shares' percentages add up to 100 |
| `YearlyAnalytics.IncomeSourcesSumTo100` | app/src/components/year-summary/YearlyAnalytics.ts:107-113 | when the income entries add up to a positive total, the income sources' percentages add up to 100 |
| `YearlyAnalytics.TopExpenseCategoriesSumTo100` | app/src/components/year-summary/YearlyAnalytics.ts:98-105 | with at most ten expense categories adding up to a positive total, the top categories' percentages add up to 100 |
| `YearlyAnalytics.YearSharesSumTo100` | app/src/components/year-summary/YearlyAnalytics.ts:42-113 | in a year's report the income sources' percentages add up to 100 when there is income, and the top expense categories' when there is expense in at most ten categories |
| `YearlyAnalytics.TopSpendingDaysFacts` | app/src/components/year-summary/YearlyAnalytics.ts:120-123 | the top spending days are the first min(5, days) days, largest first, none smaller than a day left out, each a day of the daily record with its total |
| `YearlyAnalytics.MaxExpenseMonthFacts` | app/src/components/year-summary/YearlyAnalytics.ts:116-137 | the month of largest expense is reported exactly when some month has an expense, and is then the first month with the largest expense |
| `YearlyAnalytics.BestSavingsMonthFacts` | app/src/components/year-summary/YearlyAnalytics.ts:117-138 | the best saving month is reported exactly when some month has a positive net, and is then the first month with the largest net |
| `YearlyAnalytics.SavingsRateFacts` | app/src/components/year-summary/YearlyAnalytics.ts:95 | the savings rate is at most 100, is 100 exactly when nothing was spent, is not negative exactly when spending does not exceed income, and is 0 without income |
| `ActivityHeatmap.MaxValue` | app/src/components/year-summary/ActivityHeatmap.tsx:17 | `Math.max(...Object.values(data), 0)` is at least every day's amount and is either 0 or one of them |
| `ActivityHeatmap.ShareMonotone` | app/src/components/year-summary/ActivityHeatmap.tsx:26 | for a fixed maximum a larger non-zero amount never has a smaller percentage |
| `ActivityHeatmap.ColorMonotone` | app/src/components/year-summary/ActivityHeatmap.tsx:24-33 | for a fixed maximum a larger amount never gets a lighter shade |
| `ActivityHeatmap.ColorClassFacts` | app/src/components/year-summary/ActivityHeatmap.tsx:24-33 | the shade is empty exactly for a zero amount, the maximum itself gets the top shade, and an amount up to the maximum is at most 100 percent of it |
| `ActivityHeatmap.ShareBelow` | app/src/components/year-summary/ActivityHeatmap.tsx:26-31 | the percentage is below 20k exactly when five times the amount is below k times the maximum |
| `ActivityHeatmap.ColorByFifths` | app/src/components/year-summary/ActivityHeatmap.tsx:24-33 | a non-zero amount gets the shade of the fifth of the maximum it falls in |
| `ActivityHeatmap.LookupIsValue` | app/src/components/year-summary/ActivityHeatmap.tsx:56 | `data[dateStr] \|\| 0` is 0 or the amount stored for that day |
| `ActivityHeatmap.DayShadeFacts` | app/src/components/year-summary/ActivityHeatmap.tsx:17-69 | every day of the grid is at most the maximum, so a non-empty day is never divided by zero and stays within 100 percent; a day is empty exactly when it has no amount; the largest day gets the top shade |
| `YearlyKPIs.KpiCardFacts` | app/src/components/year-summary/YearlyKPIs.tsx:13-72 | the trend is the change relative to the size of the previous value, with the change's sign, and 0 with no previous value or a zero one; a rise is good except for expenses, where a fall is, and without a comparison the card counts as good; the up arrow shows only for a rise; the comparison line appears whenever a previous value is given and shows the trend's magnitude |
| `YearlyKPIs.YearlyKpis` | app/src/components/year-summary/YearlyKPIs.tsx:92-125 | four cards, each with a comparison exactly when last year's figures are given, and with no trend and a good colour when they are not |
| `InsightSummary.SavingsInsight` | app/src/components/year-summary/InsightSummary.tsx:20-26 | the savings remark praises a rate above 20, encourages a rate above 0 up to 20, and warns of overspending otherwise |
| `InsightSummary.BuildInsights` | app/src/components/year-summary/InsightSummary.tsx:12-31 | one to three remarks in a fixed order: the top expense category when there is one, then exactly one savings remark, then the peak spending month when there is one |
| `YearSummaryClient.TransactionYears` | app/src/app/year-summary/YearSummaryClient.tsx:22 | the year of every transaction, in order |
| `YearSummaryClient.AvailableYearsFacts` | app/src/app/year-summary/YearSummaryClient.tsx:21-24 | the years offered are strictly decreasing, are exactly the years of the transactions, and are empty exactly when there are no transactions |
| `YearSummaryClient.InitialSelectedYearFacts` | app/src/app/year-summary/YearSummaryClient.tsx:26-27 | with no data the current year is selected; otherwise a selected year other than the current one is the latest year of the data; no positive year of the data is later than the selection |
| `YearSummaryClient.PreviousYearFacts` | app/src/app/year-summary/YearSummaryClient.tsx:31-67 | the comparison figures are the income and expense totals of exactly the year before's transactions, with net income their difference |
| `YearSummaryClient.KpiCardsCompare` | app/src/app/year-summary/YearSummaryClient.tsx:55-68 | the previous year's figures are always passed, so all four cards always show a comparison |
| `YearSummaryClient.IncomeChartData` | app/src/app/year-summary/YearSummaryClient.tsx:83 | each income source becomes a chart row with its category and amount, in order |
| `YearSummaryClient.YearSummaryState.constructor` | app/src/app/year-summary/YearSummaryClient.tsx:27 | the selected year starts at the latest year of the data, or the current year |
| `YearSummaryClient.YearSummaryState.SetSelectedYear` | app/src/app/year-summary/YearSummaryClient.tsx:46-50 | the year selector sets the selected year |
| `KeyMetrics.AvgPerTransaction` | app/src/components/dashboard/KeyMetrics.tsx:24-26 | the spending per expense transaction is the total divided by the count, and 0 when there is no expense |
| `KeyMetrics.AvgPerDay` | app/src/components/dashboard/KeyMetrics.tsx:27-29 | the spending per day is the total divided by the days of the period, and 0 when the period has no positive length |
| `KeyMetrics.Top3Facts` | app/src/components/dashboard/KeyMetrics.tsx:32-37 | at most three expenses of the list, as many as there are up to three, largest first, none smaller than an expense left out |
| `KeyMetrics.Top3Members` | app/src/components/dashboard/KeyMetrics.tsx:32-37 | each of the three is an expense of the list |
| `KeyMetrics.ComputeHighestSpendingDay` | app/src/components/dashboard/KeyMetrics.tsx:40-60 | the one-pass grouping, the reduce and the sort of the winning day's list compute the highest spending day |
| `KeyMetrics.GroupExpenseDays` | app/src/components/dashboard/KeyMetrics.tsx:44-51 | the forEach over the expenses builds one entry per calendar day, in the order the days first occur |
| `KeyMetrics.FirstMaxDay` | app/src/components/dashboard/KeyMetrics.tsx:56 | the reduce replaces the best day only on a strictly larger total, so it ends at the first day with the largest total |
| `KeyMetrics.DayEntrySnoc` | app/src/components/dashboard/KeyMetrics.tsx:45-50 | one more expense creates its day's entry with its own date when the day is new, and otherwise adds its amount to that entry's total and appends it to that entry's list |
| `KeyMetrics.DayBucketsFind` | app/src/components/dashboard/KeyMetrics.tsx:42-51 | each day's entry holds the date of the day's first expense, the sum of that day's expenses and those expenses in order; a day without expenses has no entry |
| `KeyMetrics.DayBucketsDistinct` | app/src/components/dashboard/KeyMetrics.tsx:42-51 | no day has two entries |
| `KeyMetrics.EntryOf` | app/src/components/dashboard/KeyMetrics.tsx:44-51 | every day with an expense has an entry |
| `KeyMetrics.HighestSpendingDayFacts` | app/src/components/dashboard/KeyMetrics.tsx:40-60 | the highest spending day is null exactly when there are no expenses; otherwise its total is the sum of its day's expenses and no day has a larger sum, its list is that day's expenses largest first, and its largest transaction is one of them with no smaller amount than any other; among days with equal totals the day whose first expense comes first wins, as the strict `>` of the reduce makes it |
| `KeyMetrics.DayTieBreak` | app/src/components/dashboard/KeyMetrics.tsx:53-56 | the first entry with the largest total belongs to a day with an expense no later than any expense of a day with the same total |
| `KeyMetrics.DayBucketsPrefix` | app/src/components/dashboard/KeyMetrics.tsx:44-53 | the entries built from a prefix of the expenses are, key for key, the first entries built from all of them: days keep the order they first occur in |
| `KeyMetrics.PeakFacts` | app/src/components/dashboard/KeyMetrics.tsx:58-59 | the winner's list is its day's list sorted largest first, headed by its largest expense |
| `KeyMetrics.HalvesSplit` | app/src/components/dashboard/KeyMetrics.tsx:66-75 | every expense is before the midpoint or from it on, so the two halves add up to the whole spending |
| `KeyMetrics.HalfPeriodTotal` | app/src/components/dashboard/KeyMetrics.tsx:63-77 | the first and the second half of the range add up to the total expense of the list |
| `KeyMetrics.MidPointBetween` | app/src/components/dashboard/KeyMetrics.tsx:64 | the midpoint of the range lies between its two ends |
| `TopExpenses.BuildPreviousMap` | app/src/components/dashboard/TopExpenses.tsx:32-38 | the forEach writes every previous item's amount under its category |
| `TopExpenses.PreviousMapFind` | app/src/components/dashboard/TopExpenses.tsx:32-38 | later items overwrite earlier ones, so each category holds the amount of its last previous item, and a category with no item has none |
| `TopExpenses.LastAmountNone` | app/src/components/dashboard/TopExpenses.tsx:35-68 | a category has no previous amount exactly when no previous item has it |
| `TopExpenses.Top10Rows` | app/src/components/dashboard/TopExpenses.tsx:40 | `slice(0, 10)`: as many rows as there are items, up to ten |
| `TopExpenses.PercentageFacts` | app/src/components/dashboard/TopExpenses.tsx:67 | the share is the amount as a percentage of the total, 0 when the total is 0, never negative, and at most 100 for an amount within the total |
| `TopExpenses.RowFacts` | app/src/components/dashboard/TopExpenses.tsx:66-128 | a row shows its item, its share of the total, a bar never wider than 100 and as wide as the share when that is at most 100, the previous amount of its category or 0, the difference to it, and a rise, fall or no-change marker chosen by the difference's sign alone |
| `TopExpenses.Top10RowFacts` | app/src/components/dashboard/TopExpenses.tsx:27-69 | row i renders item i against the total of all current items, so its share is at most 100 percent, and compares it with the last previous item of its category, or 0 |
| `TopExpenses.NewCategoryComparesToZero` | app/src/components/dashboard/TopExpenses.tsx:68-69 | a category with no previous item compares against 0, so its difference is its whole amount |
| `TopExpenses.CategoryTransactionsFacts` | app/src/components/dashboard/TopExpenses.tsx:43-46 | with no category selected, or the empty one, the modal lists nothing; otherwise exactly the transactions of that category, in their order |
| `TopExpenses.TopExpensesCard.constructor` | app/src/components/dashboard/TopExpenses.tsx:25 | no category is selected at first |
| `TopExpenses.TopExpensesCard.SelectRow` | app/src/components/dashboard/TopExpenses.tsx:75 | clicking a row selects its category |
| `TopExpenses.TopExpensesCard.CloseModal` | app/src/components/dashboard/TopExpenses.tsx:145-151 | closing the modal clears the selection |
| `DailyTransactionsTable.Body` | app/src/components/dashboard/DailyTransactionsTable.tsx:39-40 | with no data only the placeholder row shows, and otherwise one row per day |
| `DailyTransactionsTable.SortedDaysFacts` | app/src/components/dashboard/DailyTransactionsTable.tsx:22 | the sorted copy holds the same days, newest first |
| `DailyTransactionsTable.RowAtFacts` | app/src/components/dashboard/DailyTransactionsTable.tsx:40-52 | a row shows its day; its difference is its expense less that of the row below it, and 0 on the last row; its average is the day's volume per transaction, and 0 when the day has none |
| `Paging.TotalPages` | app/src/components/transactions/TransactionTable.tsx:29 | `Math.ceil(n / pageSize)` is 0 exactly for an empty list, and otherwise the least number of pages that holds every row |
| `Paging.Slice` | app/src/components/transactions/TransactionTable.tsx:32 | `slice(start, end)` clamps both bounds to the length and returns the rows between them |
| `Paging.PageOfIndex` | app/src/components/transactions/TransactionTable.tsx:29-32 | every row of the list is on exactly one page, page i / size + 1, which is one of the pages counted, at position i % size |
| `Paging.OnlyPage` | app/src/components/transactions/TransactionTable.tsx:30-31 | no other page's index range covers row i |
| `Paging.LabelCountsRows` | app/src/components/transactions/TransactionTable.tsx:164 | for any page that exists the "from-to / n" label counts exactly the rows shown, at least one, out of the list's length |
| `Paging.Pager.constructor` | app/src/components/transactions/TransactionTable.tsx:26 | the list starts on page 1 |
| `Paging.Pager.Prev` | app/src/components/transactions/TransactionTable.tsx:168 | the previous button moves back one page but never below page 1 |
| `Paging.Pager.Next` | app/src/components/transactions/TransactionTable.tsx:161-178 | the next button, shown only when there is more than one page, moves forward one page but never past the last |
| `Paging.StepsStayInRange` | app/src/components/transactions/TransactionTable.tsx:168-179 | from a page that exists the two buttons stay on pages that exist, and move by exactly one page unless already at that end |
| `TransactionTable.TransactionTable.constructor` | app/src/components/transactions/TransactionTable.tsx:24-42 | 50 rows a page by default, page 1, no detail open and no delete pending |
| `TransactionTable.TransactionTable.HandleView` | app/src/components/transactions/TransactionTable.tsx:34-40 | a view goes to the parent when it handles views, and otherwise opens the detail here |
| `TransactionTable.TransactionTable.CloseDetail` | app/src/components/transactions/TransactionTable.tsx:189-193 | closing the detail clears it |
| `TransactionTable.TransactionTable.HandleDeleteClick` | app/src/components/transactions/TransactionTable.tsx:44-47 | a delete click only remembers the ID, which opens the confirmation dialog |
| `TransactionTable.TransactionTable.HandleConfirmDelete` | app/src/components/transactions/TransactionTable.tsx:49-54 | confirming asks the parent to delete the pending ID and clears it, only when an ID is pending and the parent handles deletes; otherwise nothing happens |
| `TransactionTable.TransactionTable.HandleOpenChange` | app/src/components/transactions/TransactionTable.tsx:66-68 | closing the dialog clears the pending ID, and opening it changes nothing |
| `TransactionTable.TransactionTable.PrevPage` | app/src/components/transactions/TransactionTable.tsx:168 | the previous button of the table moves back one page, never below 1 |
| `TransactionTable.TransactionTable.NextPage` | app/src/components/transactions/TransactionTable.tsx:161-178 | the next button of the table moves forward one page, never past the last |
| `DailyTransactionsModal.SignedTotalFacts` | app/src/components/dashboard/DailyTransactionsModal.tsx:34-39 | the day's total counts incomes up and expenses down: the income total less the expense total |
| `DailyTransactionsModal.SignPrefixFacts` | app/src/components/dashboard/DailyTransactionsModal.tsx:56 | the plus sign shows exactly when the day's expenses do not exceed its incomes |
| `DailyTransactionsModal.DailyTransactionsModal.constructor` | app/src/components/dashboard/DailyTransactionsModal.tsx:21-22 | the modal shows 20 rows a page, starting on page 1 |
| `DailyTransactionsModal.DailyTransactionsModal.PrevPage` | app/src/components/dashboard/DailyTransactionsModal.tsx:129 | the previous button moves back one page, never below 1 |
| `DailyTransactionsModal.DailyTransactionsModal.NextPage` | app/src/components/dashboard/DailyTransactionsModal.tsx:122-139 | the next button, shown only when there is more than one page, moves forward one page, never past the last |
| `CategoryTransactionsModal.UnsignedTotal` | app/src/components/dashboard/CategoryTransactionsModal.tsx:33-36 | the category's total adds every amount whatever its type: the income total plus the expense total |
| `CategoryTransactionsModal.CategoryTransactionsModal.constructor` | app/src/components/dashboard/CategoryTransactionsModal.tsx:20-21 | the modal shows 20 rows a page, starting on page 1 |
| `CategoryTransactionsModal.CategoryTransactionsModal.PrevPage` | app/src/components/dashboard/CategoryTransactionsModal.tsx:122 | the previous button moves back one page, never below 1 |
| `CategoryTransactionsModal.CategoryTransactionsModal.NextPage` | app/src/components/dashboard/CategoryTransactionsModal.tsx:115-132 | the next button, shown only when there is more than one page, moves forward one page, never past the last |
| `FilterBar.CategoryChange` | app/src/components/transactions/FilterBar.tsx:99 | the empty option of the category select stores undefined, and any other option stores its value |
| `FilterBar.ActiveFilterCount` | app/src/components/transactions/FilterBar.tsx:41-45 | the badge counts the active tests among type, category and search: at most 3, 0 exactly when none is active, 3 exactly when all are |
| `FilterBar.ActiveFacts` | app/src/components/transactions/FilterBar.tsx:36-112 | the clear button shows exactly when the badge counts something, and the initial filters have none active |
| `FilterBar.ApplyChangesOneKey` | app/src/components/transactions/FilterBar.tsx:30-31 | a change replaces its own criterion and leaves the other four as they were |
| `FilterBar.ChangeMovesCountByOne` | app/src/components/transactions/FilterBar.tsx:30-45 | one change moves the active count by at most one, and a change of either date does not move it |
| `FilterBar.FilterBarState.constructor` | app/src/components/transactions/FilterBar.tsx:12-16 | the type 'all', an empty search, collapsed, nothing reported yet |
| `FilterBar.FilterBarState.HandleChange` | app/src/components/transactions/FilterBar.tsx:30-34 | the changed filter object is stored and reported to the page |
| `FilterBar.FilterBarState.Clear` | app/src/components/transactions/FilterBar.tsx:114-118 | the clear button restores the initial filters and reports them |
| `FilterBar.FilterBarState.ToggleExpanded` | app/src/components/transactions/FilterBar.tsx:51 | the toggle opens or closes the panel and changes nothing else |
| `TransactionsPage.BaseFilters` | app/src/app/transactions/page.tsx:53-57 | the filter applied keeps the user's type, category and search, with both dates taken from the date range |
| `TransactionsPage.FilteredFacts` | app/src/app/transactions/page.tsx:52-59 | the table shows exactly the transactions inside the date range that meet the user's other criteria, in their original order; dates in the user's filter object play no part |
| `TransactionsPage.AddsOf` | app/src/app/transactions/page.tsx:86 | one add call per item of the batch, in its order |
| `TransactionsPage.TransactionsPageState.constructor` | app/src/app/transactions/page.tsx:40-43 | an empty filter, the form closed, nothing edited or viewed, no store calls yet |
| `TransactionsPage.TransactionsPageState.SetFilters` | app/src/app/transactions/page.tsx:40 | the filter bar's object becomes the page's filters |
| `TransactionsPage.TransactionsPageState.OpenForm` | app/src/app/transactions/page.tsx:118 | the add button opens the form |
| `TransactionsPage.TransactionsPageState.HandleView` | app/src/app/transactions/page.tsx:66-68 | viewing shows that transaction's detail |
| `TransactionsPage.TransactionsPageState.HandleEdit` | app/src/app/transactions/page.tsx:70-73 | editing opens the form on that transaction |
| `TransactionsPage.TransactionsPageState.HandleSubmit` | app/src/app/transactions/page.tsx:75-83 | a submit updates the transaction being edited, or else adds a new one; either way the form closes and nothing is being edited |
| `TransactionsPage.TransactionsPageState.HandleBatchSubmit` | app/src/app/transactions/page.tsx:85-88 | every item is added, in order, and the form closes, while the edit target is left as it was |
| `TransactionsPage.TransactionsPageState.CancelForm` | app/src/app/transactions/page.tsx:189-192 | cancelling closes the form and forgets the edit target; nothing else changes |
| `TransactionsPage.TransactionsPageState.CloseDetail` | app/src/app/transactions/page.tsx:179 | closing the detail view clears the viewed transaction only |
| `TransactionsPage.TransactionsPageState.HandleDelete` | app/src/app/transactions/page.tsx:171 | the table's delete is one delete call for that ID; no screen state changes |
| `RecentTransactions.RecentFacts` | app/src/components/dashboard/RecentTransactions.tsx:17-19 | min(limit, n) transactions of the list, newest first, none older than a transaction left out |
| `RecentTransactions.FormRoundTrip` | app/src/components/dashboard/RecentTransactions.tsx:24-28 | reading a query parameter back undoes its encoding for text without a percent sign |
| `RecentTransactions.FormatIsoNoPercent` | app/src/components/dashboard/RecentTransactions.tsx:25-26 | the ISO text of a date holds no percent sign, and its encoding no ampersand, so each parameter stays one parameter |
| `RecentTransactions.UrlRoundTrip` | app/src/components/dashboard/RecentTransactions.tsx:21-30 | without a range the link is the bare transactions page; with one it carries start and end parameters that read back, through the date parser, as exactly the range's two dates |
| `DashboardPage.DataDateRange` | app/src/app/page.tsx:33-40 | undefined exactly when there are no transactions; otherwise the earliest and the latest date of the data, each the date of some transaction, with every transaction between them |
| `DashboardPage.FilteredFacts` | app/src/app/page.tsx:53-58 | the range filter keeps exactly the transactions from the start to the end of the range, both included, in their original order |
| `DashboardPage.PreviousMonthTransactions` | app/src/app/page.tsx:61-69 | the comparison keeps exactly the transactions from subMonths(start, 1) to subMonths(end, 1), both included, in their order |
| `DashboardPage.PreviousWindowEnds` | app/src/app/page.tsx:61-69 | for a whole month the comparison window starts at midnight on the first of the month before and ends at that month's day min(current length, its length), at the last millisecond |
| `DashboardPage.PreviousMonthMissesLastDays` | app/src/app/page.tsx:61-69 | as written, a transaction on a day of the month before that the current month lacks is left out of the comparison |
| `DashboardPage.AprilLeavesOutMarch31` | app/src/app/page.tsx:61-69 | for April 2024 a transaction of 31 March is left out of the comparison |
| `DashboardPage.IntendedPreviousMonthFacts` | app/src/app/page.tsx:60-69 | the intended window, the month before from startOfMonth to endOfMonth, keeps exactly the transactions of that month, in their order |
| `DashboardPage.PreviousMonthLabelFacts` | app/src/app/page.tsx:71-75 | the label is the two-digit month and the year of the month before the range's start |
| `DashboardPage.ComputeBreakdowns` | app/src/app/page.tsx:80-113 | the three one-pass breakdowns are the category breakdowns of the range's expenses, the previous month's expenses and the range's incomes |
| `DashboardPage.TypeBreakdownFacts` | app/src/app/page.tsx:80-113 | a breakdown of one type has one row per category of that type, each that category's sum, ranked largest first and adding up to the type's total |
| `DashboardPage.ComputeTrendData` | app/src/app/page.tsx:115-136 | the forEach builds one entry per calendar day, in the order the days first occur |
| `DashboardPage.TrendEntrySnoc` | app/src/app/page.tsx:120-133 | one more transaction creates its day's entry with its own date when the day is new, and otherwise adds its amount to that day's income or expense and one to its count |
| `DashboardPage.TrendGroupsFind` | app/src/app/page.tsx:115-136 | each day's entry holds the date of the day's first transaction, its income, its other amounts as expense and its count; a day without transactions has none |
| `DashboardPage.TrendGroupsDistinct` | app/src/app/page.tsx:115-136 | no day has two entries |
| `DashboardPage.TrendGroupsSums` | app/src/app/page.tsx:115-136 | the counts add up to the number of transactions, and the entries' sums to the income and the expense totals |
| `DashboardPage.TrendDataFacts` | app/src/app/page.tsx:115-136 | entry i of the trend data is a day with transactions, holding that day's income, expense and count, and no other entry is for that day |
| `DashboardPage.TrendDataCovers` | app/src/app/page.tsx:115-136 | every calendar day with a transaction has an entry |
| `DashboardPage.DaysInMonthPeriod` | app/src/app/page.tsx:139-141 | for a whole month, as the date filter selects, the period has as many days as the month |
| `DashboardPage.ExpenseCountFacts` | app/src/app/page.tsx:144-146 | the expense count and the income count make up all transactions of the range |
| `DashboardPage.SelectedDateFacts` | app/src/app/page.tsx:151-158 | nothing without a selected date; otherwise exactly the range's transactions on the same day, month and year |
| `UseSavings.ReadSavings` | app/src/hooks/useSavings.ts:14-31 | a non-ok response fails with the body's error or 'Failed to fetch savings'; an ok body that is not an array fails with its error or 'Unexpected response format'; only an array becomes the list |
| `UseSavings.SavingsStore.constructor` | app/src/hooks/useSavings.ts:7-9 | the hook starts with no savings, loading, and no error |
| `UseSavings.SavingsStore.ApplyFetch` | app/src/hooks/useSavings.ts:11-37 | after a fetch loading ends; the list is replaced only by an array body, and otherwise the error is set and the list is kept |
| `UseSavings.StatsFacts` | app/src/hooks/useSavings.ts:78-96 | the deposit and withdrawal totals split the list's whole amount, the balance is their difference, the count is the list's length, and with no argument the whole list is used |
| `UseSavings.StatsSnoc` | app/src/hooks/useSavings.ts:81-86 | one more record adds one to the count, and its amount to the deposit total for a deposit or to the withdrawal total for a withdrawal, leaving the other |
| `SavingsPage.FilteredSavingsFacts` | app/src/app/savings/page.tsx:18-23 | the selected year's records, and only those, in their original order |
| `SavingsPage.YearsOf` | app/src/app/savings/page.tsx:29 | the year of every record, in order |
| `SavingsPage.AvailableYearsFacts` | app/src/app/savings/page.tsx:28-32 | the years offered are strictly decreasing and are exactly the current year and the years of the records |
| `SavingsPage.SavingsPageState.constructor` | app/src/app/savings/page.tsx:12-15 | the page opens on the current year with the form closed and nothing edited or viewed |
| `SavingsPage.SavingsPageState.PreviousYear` | app/src/app/savings/page.tsx:103 | the left arrow moves one year back |
| `SavingsPage.SavingsPageState.NextYear` | app/src/app/savings/page.tsx:110 | the right arrow moves one year forward |
| `SavingsPage.SavingsPageState.OpenAddForm` | app/src/app/savings/page.tsx:118-121 | the add button opens an empty form |
| `SavingsPage.SavingsPageState.HandleView` | app/src/app/savings/page.tsx:136 | opening a record shows its detail |
| `SavingsPage.SavingsPageState.HandleEdit` | app/src/app/savings/page.tsx:44-47 | editing opens the form on that record |
| `SavingsPage.SavingsPageState.CancelForm` | app/src/app/savings/page.tsx:144-147 | cancelling closes the form and forgets the edit target |
| `SavingsPage.SavingsPageState.CloseDetail` | app/src/app/savings/page.tsx:155 | closing the detail view clears it |
| `SavingsPage.SavingsPageState.HandleAdd` | app/src/app/savings/page.tsx:34-42 | the store is asked to add, and the form closes only when that succeeded |
| `SavingsPage.SavingsPageState.HandleUpdate` | app/src/app/savings/page.tsx:49-60 | nothing happens without an edit target; otherwise the update is sent and the form is reset only when it succeeded |
| `SavingsPage.SavingsPageState.HandleDelete` | app/src/app/savings/page.tsx:62-70 | the delete is sent and the detail view closes only when it succeeded |
| `SavingForm.FormatVnd` | app/src/components/savings/SavingForm.tsx:21-25 | formatVND is empty exactly when the input has no digit |
| `SavingForm.FormatVndFacts` | app/src/components/savings/SavingForm.tsx:21-25 | up to three digits are shown as they are; more have a dot between groups of three; deleting the dots gives back exactly the input's digits, leading zeros included; formatting the shown text again changes nothing |
| `SavingForm.FormatVndOfDigits` | app/src/components/savings/SavingForm.tsx:22-30 | formatting the kept digits is formatting the input |
| `SavingForm.SavingFormState.constructor` | app/src/components/savings/SavingForm.tsx:14-44 | the form is filled from the saving being edited, or for a new one with today's date, a deposit and everything else empty |
| `SavingForm.SavingFormState.HandleAmountChange` | app/src/components/savings/SavingForm.tsx:27-31 | the digits typed are kept raw and shown formatted |
| `SavingForm.SavingFormState.HandleSubmit` | app/src/components/savings/SavingForm.tsx:46-61 | with an empty amount or date nothing happens; otherwise onSubmit is called once with submitting set, and the flag is cleared afterwards whether or not the call failed, a failure being passed on |
| `SavingForm.EditedAmountKept` | app/src/components/savings/SavingForm.tsx:37-54 | a saving being edited submits its own amount, shown with dot grouping |
| `TransactionForm.CategoryListsFacts` | app/src/components/transactions/TransactionForm.tsx:53-58 | the expense list keeps the category list's order, shares no name with the four income names, and the two lists together hold exactly the category list's names |
| `TransactionForm.IncomeNamesListed` | app/src/components/transactions/TransactionForm.tsx:55 | every income name is on the category list |
| `TransactionForm.ExpenseNamesListed` | app/src/components/transactions/TransactionForm.tsx:57 | a name is on the expense list exactly when it is on the category list and is not an income name |
| `TransactionForm.LastCategory` | app/src/components/transactions/TransactionForm.tsx:26-35 | the category offered is never empty |
| `TransactionForm.LastType` | app/src/components/transactions/TransactionForm.tsx:37-43 | the saved type is income exactly when storage holds 'income'; anything else is expense |
| `TransactionForm.LastDate` | app/src/components/transactions/TransactionForm.tsx:18-24 | a non-empty saved date is used as it is; otherwise today's date |
| `TransactionForm.LastCategoryFacts` | app/src/components/transactions/TransactionForm.tsx:26-35 | when the saved category is not used, the default offered is on that type's list |
| `TransactionForm.SwitchedCategoryOnList` | app/src/components/transactions/TransactionForm.tsx:100-106 | after a type switch the category is on the new type's list, and it is the saved one whenever that is on the list |
| `TransactionForm.FormatAmountInput` | app/src/components/transactions/TransactionForm.tsx:60-64 | the field is emptied exactly when the input has no digit |
| `TransactionForm.KeepDigitsOfGrouped` | app/src/components/transactions/TransactionForm.tsx:60-64 | grouping digits by dots and keeping only the digits gives the digits back |
| `TransactionForm.GroupedDigitsOrDots` | app/src/components/transactions/TransactionForm.tsx:61 | on text of digits and dots, keeping the digits is removing the dots |
| `TransactionForm.FormatThenParse` | app/src/components/transactions/TransactionForm.tsx:60-116 | a formatted field parses to the number its digits spelled (0 without digits), and formatting it again changes nothing |
| `TransactionForm.GroupedParse` | app/src/components/transactions/TransactionForm.tsx:81-116 | an amount grouped for display parses back to the same amount |
| `TransactionForm.InitialForm` | app/src/components/transactions/TransactionForm.tsx:77-95 | a new form starts with an empty amount and description and the remembered category for its type; an edit form's amount parses back to the transaction's amount |
| `TransactionForm.UpdatedForm` | app/src/components/transactions/TransactionForm.tsx:97-112 | only the named field changes, except that a type change also picks a category on the new type's list and an amount is reformatted |
| `TransactionForm.TransactionFormState.constructor` | app/src/components/transactions/TransactionForm.tsx:77-95 | the fields start as the initial form, with nothing submitted and the form open |
| `TransactionForm.TransactionFormState.UpdateFormData` | app/src/components/transactions/TransactionForm.tsx:97-112 | the fields become the updated form; storage and submissions are untouched |
| `TransactionForm.TransactionFormState.Cancel` | app/src/components/transactions/TransactionForm.tsx:142-148 | the backdrop and the close button call onCancel and change nothing else |
| `TransactionForm.TransactionFormState.HandleSubmit` | app/src/components/transactions/TransactionForm.tsx:118-139 | the submit goes through exactly when the amount parses above 0; then the date, category and type are remembered, one draft with the parsed amount is submitted and the form closes; otherwise nothing changes |
| `DateRangeFilter.QuickTarget` | app/src/components/dashboard/DateRangeFilter.tsx:24-42 | 'this' lands in the current month, 'last' in the month before it, 'prev' and 'next' one month before or after the month on view |
| `DateRangeFilter.DateRangeFilterState.constructor` | app/src/components/dashboard/DateRangeFilter.tsx:16-17 | the popover starts closed, viewing the start date's month, with nothing emitted |
| `DateRangeFilter.DateRangeFilterState.SyncStartDate` | app/src/components/dashboard/DateRangeFilter.tsx:20-22 | a new start date from outside becomes the month on view |
| `DateRangeFilter.DateRangeFilterState.ToggleOpen` | app/src/components/dashboard/DateRangeFilter.tsx:59 | the button flips the popover open or closed |
| `DateRangeFilter.DateRangeFilterState.Close` | app/src/components/dashboard/DateRangeFilter.tsx:69 | a click outside the popover closes it |
| `DateRangeFilter.DateRangeFilterState.HandleQuickSelect` | app/src/components/dashboard/DateRangeFilter.tsx:24-50 | the view moves to the chosen month, that month's first and last instants are emitted once, and only 'this' and 'last' close the popover |
| `DateRangeFilter.EmittedMonth` | app/src/components/dashboard/DateRangeFilter.tsx:45 | what a selection emits is one whole month of the chosen month, from midnight of day 1 to the last millisecond of its last day, spanning as many days as the month has |
| `DateRangeFilter.PrevThenNext` | app/src/components/dashboard/DateRangeFilter.tsx:34-39 | stepping back a month and then forward returns to the month one started from |
| `UseDateFilter.MonthRange` | app/src/hooks/useDateFilter.ts:17-79 | a month range starts at midnight on day 1 and ends at the last millisecond of the last day of the same month |
| `UseDateFilter.LoadLayout` | app/src/hooks/useDateFilter.ts:22-40 | the saved layout around two 24-character dates is read as those two dates, and gives nothing when either is invalid |
| `UseDateFilter.IsoLength` | app/src/hooks/useDateFilter.ts:45-48 | a date with a four-digit year is written in 24 characters and read back as itself |
| `UseDateFilter.SaveLoadRoundTrip` | app/src/hooks/useDateFilter.ts:22-49 | a range the hook saved is loaded back unchanged |
| `UseDateFilter.LoadFacts` | app/src/hooks/useDateFilter.ts:22-40 | nothing stored, or an empty text, loads nothing, and a loaded range is the two dates read from the saved text |
| `UseDateFilter.WrittenLoads` | app/src/hooks/useDateFilter.ts:22-49 | an entry the hook wrote loads back as the range it wrote |
| `UseDateFilter.DateFilterState.constructor` | app/src/hooks/useDateFilter.ts:52-54 | the range starts as the current month, with neither effect run yet |
| `UseDateFilter.DateFilterState.LoadOnMount` | app/src/hooks/useDateFilter.ts:57-66 | the mount effect runs once: a valid saved range is adopted and rules out the automatic month; otherwise the range is kept |
| `UseDateFilter.DateFilterState.AutoSet` | app/src/hooks/useDateFilter.ts:69-82 | at most once, and only when there is data and no saved range was adopted, the range becomes the month of the latest transaction and is saved |
| `UseDateFilter.DateFilterState.SaveDateRange` | app/src/hooks/useDateFilter.ts:42-49 | the storage entry becomes the range's text and nothing else changes |
| `UseDateFilter.DateFilterState.SetDateRange` | app/src/hooks/useDateFilter.ts:85-91 | a value is taken as it is and an updater is applied to the previous range; the result becomes the range and is saved |
| `UseDateFilter.AutoSetReloads` | app/src/hooks/useDateFilter.ts:22-82 | the month the data effect saves is loaded back by a later mount |
| `CategoriesPage.NumberTextsDiffer` | app/src/app/categories/page.tsx:17-44 | two different numbers are written as different ID texts |
| `CategoriesPage.DefaultIdsDistinct` | app/src/app/categories/page.tsx:17-44 | the defaults are 24 categories and no two share an ID |
| `CategoriesPage.DefaultKinds` | app/src/app/categories/page.tsx:18-43 | the first 20 defaults are exactly the expense categories and the last 4 exactly the income ones |
| `CategoriesPage.Loaded` | app/src/app/categories/page.tsx:55-66 | the first load takes the stored list when it parses, and the defaults when nothing is stored or it fails to parse |
| `CategoriesPage.Persisted` | app/src/app/categories/page.tsx:69-73 | a non-empty list is written to storage; an empty one leaves storage as it was |
| `CategoriesPage.PersistThenLoad` | app/src/app/categories/page.tsx:55-73 | a non-empty list survives a reload unchanged, and an empty one reloads what was stored before |
| `CategoriesPage.Edited` | app/src/app/categories/page.tsx:80-86 | an edit keeps the length and every ID, and leaves every category with another ID untouched |
| `CategoriesPage.EditedFacts` | app/src/app/categories/page.tsx:80-86 | after an edit every category with the edited ID carries the form's name, type and colour, and no category with another ID is new |
| `CategoriesPage.DeleteFacts` | app/src/app/categories/page.tsx:109 | a delete keeps exactly the categories with another ID, in their order |
| `CategoriesPage.TabFacts` | app/src/app/categories/page.tsx:75 | a tab shows exactly the categories of its type, in their order |
| `CategoriesPage.CategoriesPageState.constructor` | app/src/app/categories/page.tsx:47-73 | the page loads the stored list or the defaults and saves it back if non-empty, on the expense tab with the form closed and empty and no delete pending |
| `CategoriesPage.CategoriesPageState.FilteredCategories` | app/src/app/categories/page.tsx:75 | the list shown holds exactly the categories of the active tab's type, in their order |
| `CategoriesPage.CategoriesPageState.SetActiveTab` | app/src/app/categories/page.tsx:149-159 | the tab buttons change only the active tab |
| `CategoriesPage.CategoriesPageState.HandleSubmit` | app/src/app/categories/page.tsx:77-99 | an edit replaces the edited ID's fields and an add appends one category with a fresh ID; the list is saved and the form closes and resets |
| `CategoriesPage.CategoriesPageState.HandleEdit` | app/src/app/categories/page.tsx:101-105 | editing opens the form filled with that category's fields |
| `CategoriesPage.CategoriesPageState.HandleDelete` | app/src/app/categories/page.tsx:107-115 | a second click on the marked ID removes its categories, saves and clears the mark; a click on any other ID only marks it |
| `CategoriesPage.CategoriesPageState.HandleAddNew` | app/src/app/categories/page.tsx:117-121 | adding opens an empty form preset to the active tab's type and the default colour |
| `CategoriesPage.CategoriesPageState.SetFormData` | app/src/app/categories/page.tsx:246-303 | the form's inputs replace its fields and nothing else |
| `CategoriesPage.CategoriesPageState.CloseForm` | app/src/app/categories/page.tsx:231 | the backdrop (and the cancel button at line 333) close the form and keep the edit target and fields |
| `CategoriesPage.CategoriesPageState.DeleteConfirmExpired` | app/src/app/categories/page.tsx:113 | the timer clears the delete mark and changes nothing else |
| `AuthProvider.EffectivePassword` | app/src/components/auth/AuthProvider.tsx:24-39 | a missing or empty stored password means the default one; otherwise the stored one is used; the result is never empty |
| `AuthProvider.Auth.constructor` | app/src/components/auth/AuthProvider.tsx:11-12 | the hook starts signed out and loading |
| `AuthProvider.Auth.CheckSession` | app/src/components/auth/AuthProvider.tsx:14-21 | the mount effect signs the user in exactly when the session flag is 'true', and loading ends |
| `AuthProvider.Auth.Login` | app/src/components/auth/AuthProvider.tsx:23-31 | login succeeds exactly for the effective password and then marks the session; a failure changes nothing |
| `AuthProvider.Auth.Logout` | app/src/components/auth/AuthProvider.tsx:33-36 | logout removes the session flag and signs the user out |
| `AuthProvider.Auth.ChangePassword` | app/src/components/auth/AuthProvider.tsx:38-45 | the new password is stored exactly when the old one is the effective password, and the session is untouched |
| `AuthProvider.FormError` | app/src/components/auth/AuthProvider.tsx:130-138 | the confirmation is checked before the length; the form passes exactly when both match and the new password has at least 4 characters |
| `AuthProvider.AcceptedChangeLogsIn` | app/src/components/auth/AuthProvider.tsx:38-45 | after an accepted change exactly the new password logs in, and the default no longer does unless it is the new password |
| `AuthProvider.LoginForm.constructor` | app/src/components/auth/AuthProvider.tsx:55-57 | the login form starts empty, hidden and without an error |
| `AuthProvider.LoginForm.SetPassword` | app/src/components/auth/AuthProvider.tsx:87 | typing replaces the password field |
| `AuthProvider.LoginForm.ToggleShowPassword` | app/src/components/auth/AuthProvider.tsx:94 | the eye button flips whether the password is shown |
| `AuthProvider.LoginForm.HandleSubmit` | app/src/components/auth/AuthProvider.tsx:59-67 | a submit logs in exactly with the effective password; a failure shows the wrong-password error and clears the field |
| `AuthProvider.ChangePasswordForm.constructor` | app/src/components/auth/AuthProvider.tsx:120-124 | the change form starts with empty fields, no error and no success |
| `AuthProvider.ChangePasswordForm.SetFields` | app/src/components/auth/AuthProvider.tsx:171-197 | the inputs replace the three fields |
| `AuthProvider.ChangePasswordForm.HandleSubmit` | app/src/components/auth/AuthProvider.tsx:126-148 | a mismatch or a short password is reported without trying the change; otherwise the change succeeds and stores the new password, or reports a wrong old password |
| `ThemeProvider.SavedTheme` | app/src/components/theme/ThemeProvider.tsx:27-28 | a saved text counts exactly when it is 'dark' or 'light', and then names the theme adopted |
| `ThemeProvider.SavedThemeRoundTrip` | app/src/components/theme/ThemeProvider.tsx:27-42 | a theme written to storage is adopted again on the next mount |
| `ThemeProvider.Toggled` | app/src/components/theme/ThemeProvider.tsx:49-51 | toggling always changes the theme |
| `ThemeProvider.ToggleTwice` | app/src/components/theme/ThemeProvider.tsx:49-51 | toggling twice comes back to the start, and light is reached exactly from dark |
| `ThemeProvider.ThemeState.constructor` | app/src/components/theme/ThemeProvider.tsx:22-23 | the provider starts dark and not mounted |
| `ThemeProvider.ThemeState.Mount` | app/src/components/theme/ThemeProvider.tsx:25-43 | on mount a saved 'dark' or 'light' is adopted and anything else keeps dark; then the theme is written to storage and to the document |
| `ThemeProvider.ThemeState.Persist` | app/src/components/theme/ThemeProvider.tsx:37-43 | once mounted the theme goes to the document and to storage; before that nothing is written |
| `ThemeProvider.ThemeState.SetTheme` | app/src/components/theme/ThemeProvider.tsx:37-47 | setTheme takes the theme given and, once mounted, saves it |
| `ThemeProvider.ThemeState.ToggleTheme` | app/src/components/theme/ThemeProvider.tsx:37-51 | toggleTheme switches dark and light and, once mounted, saves the result |
| `Seqs.FilterMembers` | app/src/hooks/useTransactions.ts:121 | `filter` keeps exactly the elements that pass the test |
| `Seqs.FilterSubsequence` | app/src/hooks/useTransactions.ts:121 | `filter` keeps the elements in their order |
| `Seqs.FilterMultiset` | app/src/hooks/useTransactions.ts:121 | `filter` never adds an element or a copy of one |
| `Seqs.FilterAppend` | app/src/hooks/useTransactions.ts:121 | filtering a concatenation is concatenating the filtered parts |
| `Sorting.SortDesc` | app/src/hooks/useTransactions.ts:151 | a `(a, b) => b.key - a.key` sort keeps every element, as many times as it occurred |
| `Sorting.SortDescSorted` | app/src/hooks/useTransactions.ts:151 | the sorted list is in non-increasing key order |
| `Sorting.SortDescMembers` | app/src/hooks/useTransactions.ts:151 | sorting neither adds nor drops an element |
| `Sorting.SortDescSum` | app/src/hooks/useTransactions.ts:151 | sorting does not change the sum of the keys |
| `Sorting.SortDescDistinct` | app/src/hooks/useTransactions.ts:149-151 | sorting entries with distinct names keeps the names distinct |
| `Sorting.FirstMaxIndex` | app/src/components/year-summary/YearlyAnalytics.ts:116-117 | the position found holds the largest key, and every earlier position a strictly smaller one |
| `Sorting.SortDescHead` | app/src/components/year-summary/YearlyAnalytics.ts:116-117 | element [0] of the sorted list is the first element of the input with the largest key |
| `Sorting.TopK` | app/src/components/dashboard/KeyMetrics.tsx:33-36 | the first k of the sorted list and the rest make up the input, and none of the first k has a smaller key than any of the rest |
| `Sorting.TopRanked` | app/src/components/dashboard/KeyMetrics.tsx:33-36 | `slice(0, k)` of the sorted list holds min(k, n) elements of the input in non-increasing order, none smaller than any element left out |
| `Sorting.DistinctDescendingFacts` | app/src/app/year-summary/YearSummaryClient.tsx:23 | `Array.from(new Set(s)).sort((a, b) => b - a)` holds each value of s exactly once, in strictly decreasing order |
| `Records.IncomePlusExpense` | app/src/hooks/useTransactions.ts:120-125 | the income total and the expense total add up to the total of all transactions |
| `Records.NewestFirstFacts` | app/src/components/dashboard/DailyTransactionsModal.tsx:25-27 | the sorted copy holds the same transactions, newest first |
| `Records.SavingsNewestFirstFacts` | app/src/lib/google-sheets.ts:318 | the sorted savings are the same savings, newest first |
| `Records.AverageFacts` | app/src/components/dashboard/KeyMetrics.tsx:24-29 | a guarded average times its count gives back the total, and is 0 with nothing to count |
| `Grouping.GroupSumsFacts` | app/src/hooks/useTransactions.ts:144-150 | summing amounts per key gives each key once, exactly the keys that occur, each with the sum of its amounts, and the same grand total |
| `Buckets.UpsertFind` | app/src/components/dashboard/KeyMetrics.tsx:44-51 | creating a missing day's entry and then adding to it changes that day's entry only |
| `Buckets.UpsertPrefix` | app/src/components/dashboard/KeyMetrics.tsx:46-48 | creating a missing entry puts it after every existing one and keeps every key at its position |
| `Calendar.StartOfMonth` | app/src/hooks/useDateFilter.ts:19 | startOfMonth is midnight on day 1 of the same month |
| `Calendar.EndOfMonth` | app/src/hooks/useDateFilter.ts:19 | endOfMonth is the last millisecond of the last day of the same month |
| `Calendar.MarchToMarch` | app/src/hooks/useDateFilter.ts:19 | from 1 March to 1 March of the next year there are 366 days exactly when the next year is a leap year, and otherwise 365 |
| `Calendar.NextMonthStart` | app/src/hooks/useDateFilter.ts:19 | each month starts as many days after the one before as that one has |
| `Calendar.LaterMonthStart` | app/src/hooks/useDateFilter.ts:19 | a later month starts after every day of an earlier one |
| `Calendar.InMonthExactly` | app/src/hooks/useDateFilter.ts:19 | a calendar date lies between startOfMonth and endOfMonth of a month exactly when it is in that month |
| `Calendar.AddMonths` | app/src/components/dashboard/DateRangeFilter.tsx:35-38 | addMonths lands k months later, on the same day clamped to that month's length, at the same time of day |
| `Calendar.BackAndForth` | app/src/components/dashboard/DateRangeFilter.tsx:34-39 | one month back and one forward lands in the month one started from |
| `Calendar.MonthSpan` | app/src/app/page.tsx:140 | differenceInDays from a month's start to its end, plus one, is the number of days in the month |
| `Calendar.TimeParts` | app/src/lib/excel-parser.ts:120 | hours, minutes, seconds and milliseconds are in range and make up the time of day |
| `Calendar.IsoRoundTrip` | app/src/hooks/useDateFilter.ts:29-47 | a date written by toISOString is read back unchanged by the Date parser |
| `Text.NatToStringValue` | app/src/lib/telegram.ts:54 | a number's decimal digits spell the number |
| `Text.GroupThousands` | app/src/lib/telegram.ts:54 | grouping by dots never shortens the digits |
| `Text.UngroupThousands` | app/src/components/transactions/TransactionForm.tsx:115 | removing the dots from grouped digits gives the digits back |
| `Text.KeepDigits` | app/src/components/transactions/TransactionForm.tsx:61 | keeping the digits gives only digits and never lengthens the text |
| `Text.LeadingIntOfDigits` | app/src/components/transactions/TransactionForm.tsx:115 | a run of digits parses to the value it spells |
| `Text.Lower` | app/src/lib/excel-parser.ts:61 | toLowerCase lowers each character on its own, the ASCII and the Vietnamese capitals, and keeps the length |
| `Text.LowerIdempotent` | app/src/hooks/useTransactions.ts:104-107 | lowering a lowered text changes nothing |
| `Text.LowerVietnamese` | app/src/hooks/useTransactions.ts:104-107 | Vietnamese capitals such as Đ, Ă, Ơ, Ư and Ứ lower to their small letters |
| `Text.PadStart` | app/src/lib/excel-parser.ts:120 | padStart reaches the width asked for, or keeps a longer text, and ends with the text |
| `Text.TrimStart` | app/src/lib/excel-parser.ts:95-96 | trimming the start leaves a suffix of the text that does not start with a space |
| `Text.TrimEnd` | app/src/lib/excel-parser.ts:95-96 | trimming the end leaves a prefix of the text that does not end with a space |
| `Text.Split` | app/src/lib/excel-parser.ts:83 | split always gives at least one piece |
| `Text.JoinSplit` | app/src/lib/excel-parser.ts:83-93 | joining the pieces of a split with the same separator gives the text back |

## Left out

- Network I/O is left out: the Google Sheets API and its service-account credentials, `fetch` in the hooks and pages, and the Telegram HTTP request. The model uses only the values this I/O passes in and the values it returns, supplied as parameters.
- File I/O is left out: reading and writing the workbook file, and the XLSX byte encoding. A sheet is a sequence of rows of cells.
- The clock and randomness are left out: "now", `Date.now()` IDs, `generateId` and random category colours. They are parameters.
- Time zones are left out. Local time and UTC coincide, so `toDateString`, `toISOString` and date-fns `format` use the same fields.
- date-fns `parse` and `format` are modelled only for the formats the application uses: `dd/MM/yyyy`, the `HH:mm dd/MM/yyyy` export form and the ISO form of `toISOString`. The ISO form is written only for years 0 to 9999.
- The Excel serial-date conversion is left out.
- The date conversions are parameters. `toDate` (GoogleSheets, ExcelDb, ExcelParser.ExportThenRead) stands for the Date constructor applied to what the date reader returns. `parseDate` (ExcelParser.ImportRow, ParseExcelData, ExportThenImport) stands for `parseExcelDate`. `isoDay` and `dateOf` (TransactionForm, SavingForm) stand for `format(date, 'yyyy-MM-dd')` and `new Date(text)`. SheetCells.PartsDate models the constructor only on parts that name a calendar day. Months and days that roll over, NaN parts (an Invalid Date), serial numbers and the current time are not modelled. The read-back lemmas state the same day only for a conversion that satisfies SheetCells.BuildsDays.
- Floating-point presentation is left out: `toFixed` and the "M"/"K" compaction, and `Intl` currency strings.
- `toLocaleString('vi-VN')` on a whole number is modelled as grouping its decimal digits in threes with dots.
- Timers are not modelled as time. The category page's three-second delete mark expires through a method of its own. The delayed close after a password change is the parent's concern.
- React effect scheduling and state batching are left out. Each setter and each effect is one sequential step.
- Console logging and `alert` are left out.
- API routes and server-side date serialisation are left out.
- Rendering-only components and charts are left out, as is the constant colour table of `getCategoryColor`.
- `String.length` and indexing count Unicode code points here, not UTF-16 code units.
- Text.Lower: `toLowerCase` is modelled on the ASCII letters and the capitals Vietnamese writes (À to Þ, Ă, Đ, Ĩ, Ũ, Ơ, Ư, Ạ to Ỹ). Capitals of other scripts and other Latin capitals are left unchanged, and so is İ, whose lower case is two characters.
- UseTransactions.KeepMeetsAll: the search ignores case only for the letters Text.Lower lowers. A query that matches only through the case of another letter (Greek, Cyrillic, other Latin Extended capitals) is not found here; ExcelParser's case-insensitive names share this limit.
- GoogleSheets: `parseFloat` is modelled on the leading integer, and a fractional part is dropped. Amounts are whole đồng.
- A negative amount read from a sheet or a workbook is stored as 0, because amounts are natural numbers.
- ExcelDb: a text amount in a workbook cell is read as 0.
- ExcelParser.ImportRow, ExcelDb.ExcelTransactions: a non-zero numeric description cell, and in ExcelDb also a numeric category cell, is read as its decimal text. The source keeps the number in the record, so a category filter never matches it and the search's `toLowerCase` throws on such a description; a record's fields are text here. A numeric category in parseExcelData is modelled: it fails the import (ExcelParser.ImportCategory).
- ExcelParser.ImportRow: the source passes `row['Amount']` on unchanged, so a blank cell gives undefined and a text cell gives the text. The model reads both as 0 through the store's amount reader, because an amount is a number here.
- GoogleSheets: `USER_ENTERED` input is modelled only for the leading apostrophe that keeps a value as text. The spreadsheet's other input conversions are not modelled.
- Object key order is the order in which keys are first inserted. JavaScript lists integer-like keys first; that exception is not modelled.
- UseDateFilter.LoadSavedDateRange: it reads only the exact text `JSON.stringify` writes. Other JSON layouts of the same object, such as ones with white space or another key order, load as nothing here.
- UseDateFilter.LoadSavedDateRange: `new Date(text)` is modelled only on the ISO form `toISOString` writes. Other date texts are treated as invalid.
- UseSavings.ReadSavings: a response body that is not an array is modelled as a distinct case. `JSON.parse` itself is not modelled.
- Text.JsNumber: it reads as NaN the decimal fractions ("5.0"), exponents ("1e1") and hexadecimal numbers ("0x10") that `Number` reads as numbers. It reads only the pieces of a date cell, and the dates the application writes have none of these forms.
- ExcelParser: outside the browser (`typeof window === 'undefined'`), `getCategories` returns `[]` without reading anything and `saveCategories` writes nothing. `ExcelParser.StoredCategories` and `ExcelParser.CategoryStorage` model only the browser branch.
- FilterBar: the fetch of category names and their `localeCompare` ordering are not modelled. The names are a parameter.
- UseSavings: the error texts of add, update and delete calls and the re-fetch after them are not modelled. Each call reports success or failure.
- UseTransactions: the fetch, add, update and delete calls of the hook are not modelled. The transactions are a snapshot parameter.
- DailyTransactionsTable: the highlight of today's row depends on the clock and is not modelled.
- TransactionsPage: the Excel export download (`handleExport`) is file I/O and is not modelled.
- ChangePasswordForm: the `onClose` callback after success is the parent's concern and runs on a timer, so it is not modelled.

## Findings

| source | as written | input that shows it | evidently intended | confidence | as-written member | corrected member |
|---|---|---|---|---|---|---|
| app/src/lib/google-sheets.ts:232 | `!sheet?.properties?.sheetId` rejects a tab whose sheet ID is 0; the savings and category deletes repeat the test at lines 396 and 566 | a spreadsheet whose transaction tab is its first tab, with sheet ID 0; deleting a row then fails with "Sheet … not found" although the tab exists | the tab counts as found whenever it has a sheet ID, 0 included | not executed | `GoogleSheets.FirstTabRejected` | `GoogleSheets.DeleteRow` |
| app/src/app/page.tsx:61-69 | the previous month's window moves both ends of the selected month back with `subMonths`, which clamps the day, so after a 30-day month, or February, the window ends before the last day of the month before | the range of April 2024 and a transaction dated 31 March 2024: the window ends on 30 March at 23:59:59.999, so that transaction is not compared | the whole month before, from `startOfMonth(subMonths(start, 1))` to `endOfMonth(subMonths(start, 1))` | not executed | `DashboardPage.AprilLeavesOutMarch31` | `DashboardPage.IntendedPreviousMonthFacts` |
