# clearcash core, modelled in Dafny

This project models the decision logic of clearcash, a personal-finance web app. The app's
React rendering, Prisma queries, NextAuth sessions and object-storage calls are left out. What
remains is a set of pure functions over strings, sequences and integers, each with a contract:

- The transaction endpoint creates a transaction and moves the linked bank account's cached
  balance in one atomic step (`Ledger`, `Calendar`). It also lists a user's transactions for a
  month window, newest first.
- Conversion between ISO `YYYY-MM-DD` dates (section 5.2.1.1 of ISO 8601:2004, extended
  format) and Brazilian `DD/MM/YYYY` dates (`DateFormat`). The date-field mask of the
  transaction editor (`DateMask`).
- Normalisation of stored object-storage URLs into the document proxy path (`DocumentUrl`).
  Upload validation, and the storage key and proxy URL of an upload (`Storage`).
- The monthly list: month navigation, the account and type filters, PDF totals, CSV lines and
  cell truncation (`DetailsList`). The `custom_` option prefix and the category-icon lookup
  (`DetailsCategories`).
- The cents keypad of the new-income dialog (`AmountKeypad`).
- The standalone client's transaction table: the filter pipeline, sort toggle and amount sign
  (`TransactionTable`). Its dashboard: sign-based totals, verdict and report rows
  (`Dashboard`). Its new-transaction dialog (`ActionButton`).
- The image gallery's collection of images and its index navigation (`ImageGallery`).
- The custom-categories endpoint (`CategoriesApi`) and the custom-category editor
  (`CategoryEditor`).
- The authentication redirect middleware and its matcher (`AuthMiddleware`). The
  inactivity-timeout middleware (`Inactivity`).
- The initials of the user avatar (`UserInfo`).

Shared pieces live in `Wrappers` (Option, Result), `Strings` (prefix tests, split/join, ASCII
case mapping, code-point order), `Decimal` (decimal text, and JavaScript `parseInt` with radix 10 and without a radix), `Lists`
(filter, sum, map, subsequence) and `Sorting` (a stable insertion sort over a comparator).

Modelling choices:

- Amounts are integers: whole cents in the keypad, whole units elsewhere.
- Calendar instants are local calendar fields (year, month, day, milliseconds into the day).
  The JavaScript `Date` month carry and the 0..99 → 1900s year rule are modelled for the month
  window.
- Clocks, random ids, database-assigned ids and storage failures are parameters (`now`,
  `uuid`, `newId`, `fault`, `storage`).
- JavaScript `localeCompare` is modelled as lexicographic order on code points. `Array.prototype.sort`
  is modelled as a stable insertion sort.
- The transaction POST handler passes `amount` to `parseFloat` without any check
  (app/api/transactions/route.ts:61-67). The model takes the amount as given.

## Model

| member | source | states |
|---|---|---|
| Ledger.Create | app/api/transactions/route.ts:53-111 | Without a session the result is 401 and nothing changes. Any failure, including a bankAccountId that names no account, yields 500 and leaves both tables unchanged. A success appends one transaction owned by the session user, dated `now` when no date is given and linked exactly when the id is truthy. Only the linked account's balance moves: +amount for INCOME, −amount for any other type. |
| Ledger.CreatePreservesConsistency | app/api/transactions/route.ts:62-104 | Every create, successful or not, keeps the ledger invariant. The invariant is that each cached balance equals its opening balance plus the signed amounts of its linked transactions, and every link names an existing account. |
| Ledger.OpenAccount | app/api/bank-accounts/route.ts:41-55 | Opening an account succeeds exactly for an unused id, adds only that account, and leaves the transactions alone. |
| Ledger.OpenPreservesConsistency | app/api/bank-accounts/route.ts:41-55 | Opening an account keeps the invariant, with the new balance recorded as its opening balance. |
| Ledger.CreateAllConsistent | app/api/transactions/route.ts:86-101 | After any sequence of creates, each balance is its opening balance plus the sum of +amount over its linked INCOME transactions and −amount over the others. |
| Ledger.List | app/api/transactions/route.ts:5-51 | 401 exactly without a session. 500 exactly when the query fails, or when a date filter (month and year both non-empty) has a month or year that `parseInt` without a radix reads as NaN (no digits, or a bare "0x"), since the window is then an Invalid Date. Otherwise the result is a permutation of the user's transactions passing the account and month filters, sorted newest first, all owned by the user. |
| Ledger.ListMembership | app/api/transactions/route.ts:31-44 | Unless the date filter reads as NaN, a listing is produced, and a transaction is in it exactly when it is stored, belongs to the user and passes the filters. |
| Ledger.NumericQueryWindow | app/api/transactions/route.ts:19-29 | A month and year given as the decimal texts of two integers never fail, and they filter on exactly the window of that month. |
| Ledger.TrailingTextIgnored | app/api/transactions/route.ts:20-21 | `parseInt` reads only the leading digits, so a month of "1abc" filters exactly as "1". |
| Ledger.MonthTextsAgree | app/api/transactions/route.ts:19-21 | Two non-empty month texts that `parseInt` reads alike give the same filter and the same failure. |
| Ledger.HexMonthRead | app/api/transactions/route.ts:20-21 | Without a radix, `parseInt` reads "0x1" in base 16, so that month filters exactly as "1". |
| Ledger.HexMonthFails | app/api/transactions/route.ts:19-50 | A month of "0x" with a non-empty year has no digit to read: the window is an Invalid Date and the listing answers 500. |
| Calendar.FirstOfMonth | app/api/transactions/route.ts:20 | `new Date(year, m, 1)` is a valid first-of-month midnight whose month ordinal equals that of the normalised year plus the month index. Month indices outside 0..11 carry into the year. |
| Calendar.DayZeroIsLastDay | app/api/transactions/route.ts:21 | `new Date(year, month, 0)` is the midnight that starts the last day of the requested month. |
| Calendar.InMonthWindowIff | app/api/transactions/route.ts:19-29 | The window admits exactly the instants of the normalised month, except those after midnight on its last day. |
| Calendar.LastDayExcluded | app/api/transactions/route.ts:21-27 | 10:00 on 31 January 2024 lies outside the January 2024 window as written, and inside the whole-month window. |
| Calendar.InWholeMonthIff | app/api/transactions/route.ts:19-29 | The corrected window, ending at the last millisecond of the month, admits exactly the valid instants of the month. |
| DateFormat.IsoToBrazilian | lib/utils.ts:87-95 | "" stays "". A non-matching input is returned unchanged. An input starting `YYYY-MM-DD` gives the 10-character `DD/MM/YYYY` with the day, month and year groups moved into place. |
| DateFormat.BrazilianToIso | lib/utils.ts:100-110 | "" stays "". The matching is done on the input with every character except digits and '/' removed. On a match the result is the 10-character `YYYY-MM-DD` built from the cleaned groups. Otherwise the original, uncleaned input is returned. |
| DateFormat.IsoRoundTrip | lib/utils.ts:87-110 | Brazilian-to-ISO after ISO-to-Brazilian restores any 10-character `YYYY-MM-DD`. |
| DateFormat.BrazilianRoundTrip | lib/utils.ts:87-110 | ISO-to-Brazilian after Brazilian-to-ISO restores any 10-character `DD/MM/YYYY`. |
| DateFormat.IsoDropsSuffix | lib/utils.ts:89-92 | Anything after the first ten characters of an ISO value (a time part) is dropped. |
| DateFormat.NoCalendarValidation | lib/utils.ts:89-107 | Groups are only rearranged: month 99 and day 99 pass through both directions. |
| DateFormat.BrazilianCleansInput | lib/utils.ts:100-108 | A stray leading character is cleaned away before the date is recognised. |
| DocumentUrl.Normalize | lib/document-url.ts:5-47 | "" is returned as is. Proxy paths are returned unchanged, and so is any URL naming neither R2 host. Otherwise the result is the input or a proxy path. |
| DocumentUrl.Pathname | lib/document-url.ts:17-19 | A parsed pathname starts with '/' and holds no '?'. |
| DocumentUrl.FileKey | lib/document-url.ts:22-28 | The key has no '?'. For a '/'-led path without a query, it is the path without its leading '/'. |
| DocumentUrl.MatchAt | lib/document-url.ts:36 | One attempt of the expression at a position: one of the two R2 host names, then the lazy capture after its '/'. |
| DocumentUrl.RegexKey | lib/document-url.ts:36-42 | The regular-expression fallback captures a non-empty key. |
| DocumentUrl.RegexKeyLeftmost | lib/document-url.ts:36 | The fallback's key is the capture at the first position where the expression matches, and there is none exactly when it matches nowhere. |
| DocumentUrl.NormalizeFallback | lib/document-url.ts:33-42 | For an R2 URL that cannot be parsed, the result is the proxy path of the fallback's key. When the expression matches nowhere, the URL comes back unchanged. |
| DocumentUrl.NormalizeIdempotent | lib/document-url.ts:5-47 | Normalising twice is normalising once. |
| DocumentUrl.PrefixedIsFixed | lib/document-url.ts:9-11 | Every string starting with the proxy prefix is a fixed point. |
| DocumentUrl.R2UrlToProxy | lib/document-url.ts:14-32 | A parseable R2 URL becomes the proxy prefix followed by its pathname, without the leading '/'. |
| Storage.ValidateFile | services/r2/index.ts:37-64 | Valid exactly for one of the six allowed MIME types and a size of at most 10·1024·1024 bytes. A bad type gives the type error even when the size is also too big. |
| Storage.SizeBoundary | services/r2/index.ts:46-61 | Exactly 10 MiB is accepted, one byte more is rejected, and a bad type wins over a bad size. |
| Storage.Extension | services/r2/index.ts:88 | The extension never contains '.'. |
| Storage.ExtensionShape | services/r2/index.ts:88 | The extension is a suffix of the name. It is the whole name when there is no '.'; otherwise it is what follows the last '.'. |
| Storage.ExtensionOfTrailingDot | services/r2/index.ts:88 | A name ending in '.' has the empty extension. |
| Storage.UploadFile | services/r2/index.ts:66-128 | Validation fails before storage is touched. A success gives the key "documents/" + uuid + "." + extension and the URL "/api/documents/" + key, and that URL is a fixed point of the normaliser. |
| DetailsList.NextMonth | components/Details.tsx:423-430 | From a valid month the next month is valid and one month later; December wraps to January of the next year. |
| DetailsList.PreviousMonth | components/Details.tsx:432-439 | From a valid month the previous month is valid and one month earlier. |
| DetailsList.NavigationInverse | components/Details.tsx:423-439 | Previous undoes next, and next undoes previous. |
| DetailsList.ApplyFilters | components/Details.tsx:170-179 | The filtered list is a subsequence of the fetched rows. It holds exactly the rows passing both the account test and the type test, in order. |
| DetailsList.FiltersAsOne | components/Details.tsx:170-179 | The two filters applied one after the other, each only when active, equal one filter by the conjunction. |
| DetailsList.PdfTotals | components/Details.tsx:353-359 | Over the whole list: income sums the INCOME amounts, expense the EXPENSE amounts, and the balance sums +amount for INCOME, −amount for EXPENSE and 0 for any other type. Rows of another type count in none of the three. |
| DetailsList.AmountCell | components/Details.tsx:397 | The CSV amount gets a '-' prefix exactly for EXPENSE. |
| DetailsList.CsvCells | components/Details.tsx:393-401 | Every row has as many cells as the header, and each cell is its column's field: date, title, category, type, the signed amount, the account ("N/A" when absent or empty) and the description ("" when absent). |
| DetailsList.Csv | components/Details.tsx:392-406 | The file starts with the header line. With no rows it is the header line alone; otherwise a newline follows it. DetailsList.CsvLines states the line structure. |
| DetailsList.CsvLines | components/Details.tsx:403-406 | Splitting the file at newlines gives the header line followed by one line per transaction, in order. |
| DetailsList.CsvRoundTrip | components/Details.tsx:392-406 | When no cell holds ',' or a newline, the file has one more line than there are transactions. The first line splits back into the header and each other line into its row's cells. |
| DetailsList.Truncate | components/Details.tsx:331-335 | A string longer than n becomes its first n characters plus "...". Shorter strings are unchanged. |
| DetailsList.PdfRow | components/Details.tsx:315-336 | Title ≤ 23, category ≤ 18 and account ≤ 18 characters. Short values are unchanged, and a longer one becomes its first 20 (title) or 15 (category, account) characters followed by "...". A missing or empty institution shows "N/A". |
| DetailsCategories.StripCustom | components/Details.tsx:443 | A value with the prefix is the prefix plus the result; any other value is unchanged. |
| DetailsCategories.StripTagged | components/Details.tsx:202-215 | Stripping a custom option's value gives back the category id. |
| DetailsCategories.CustomOptions | components/Details.tsx:202-215 | Each custom option is prefixed and comes from a category of that type, and every category of that type has its option. |
| DetailsCategories.LoadOptions | components/Details.tsx:195-225 | For each type the list is that type's custom options followed by its defaults. Every custom category of the type is listed. |
| DetailsCategories.Find | components/Details.tsx:444-447 | The first option whose stripped value is the key is found. None exactly when no option's stripped value is the key. |
| DetailsCategories.CategoryIcon | components/Details.tsx:441-462 | The icon is always a loaded option's icon, the lowercase table's entry or the type icon. When no option matches, a category that lowercases to "other" shows the type icon, and any other category shows the lowercase table's entry, or the type icon when the table has none. FoundIcon states the matching-option branch. |
| DetailsCategories.FoundIcon | components/Details.tsx:444-451 | A matching option's icon wins. |
| DetailsCategories.CustomIcon | components/Details.tsx:441-451 | A transaction in a custom category shows that category's icon, in either language. |
| DetailsCategories.CaptionFallsBackToTable | components/Details.tsx:453-461 | A category no option matches, such as "Food", is looked up in the icon table by its lowercase form. |
| DetailsCategories.EditValue | components/Details.tsx:470-480 | An unmatched category stays as is. A matched one becomes the value of the first income-then-expense option that strips back to it. |
| DetailsCategories.SubmitValue | components/Details.tsx:574-576 | A value carrying the `custom_` prefix is submitted without exactly that prefix; any other value is submitted unchanged. |
| DetailsCategories.EditSubmitRoundTrip | components/Details.tsx:569-576 | Opening a transaction in the editor and submitting it unchanged stores the same category. |
| DetailsCategories.OtherExpenseShowsIncomeIcon | components/Details.tsx:441-460 | As written, an EXPENSE transaction in "other" shows the income icon. |
| DetailsCategories.CategoryIconFixed | components/Details.tsx:453-460 | The corrected lookup decides "other" by the transaction type before the option search and otherwise behaves as before. |
| DetailsCategories.OtherFollowsType | components/Details.tsx:453-460 | With the corrected lookup, "other" shows the expense icon for EXPENSE and the income icon for INCOME. |
| DateMask.DaySlash | components/Details.tsx:896-898 | A slash is inserted after the day exactly when the cleaned text is longer than two characters and has no slash: then position 2 holds '/' and removing it gives the cleaned text back. Otherwise the text is unchanged. |
| DateMask.Mask | components/Details.tsx:893-901 | The masked text holds only digits and '/' and has at most 10 characters. |
| DateMask.CompleteDateBroken | components/Details.tsx:899-901 | As written, a complete `DD/MM/YYYY` becomes `DD/MM//YYY`, which is no longer a date. |
| DateMask.TypingPastTheMonthBreaks | components/Details.tsx:899-901 | As written, typing a year digit onto a partial date puts a second '/' right after the month's slash. |
| DateMask.MaskFixed | components/Details.tsx:893-901 | The corrected mask's output also holds only digits and '/' and has at most 10 characters. |
| DateMask.FixedKeepsCompleteDate | components/Details.tsx:899-901 | The corrected mask leaves a complete date unchanged. |
| DateMask.FixedKeepsPartialDate | components/Details.tsx:893-901 | The corrected mask leaves every partial date unchanged. |
| DateMask.FixedTypingExtends | components/Details.tsx:893-901 | With the corrected mask, typing a digit onto a partial date gives a longer partial date that extends it. |
| AmountKeypad.Display | components/AddTransaction.tsx:22 | The display is a run of unit digits with no leading zero, then ',', then exactly two cent digits, with no '.'. |
| AmountKeypad.DisplayCents | components/AddTransaction.tsx:21-22 | Reading the display's digits back gives the cents. |
| AmountKeypad.DisplayInjective | components/AddTransaction.tsx:22 | Different amounts have different displays. |
| AmountKeypad.InitialIsZero | components/AddTransaction.tsx:18 | The initial "0,00" is the display of zero cents. |
| AmountKeypad.TypeDigit | components/AddTransaction.tsx:20-23 | Typing a digit shows 10·c + d cents, where c is the amount the current text reads as; the text then reads back as that amount. |
| AmountKeypad.Backspace | components/AddTransaction.tsx:75-79 | Backspace shows c div 10 cents, where c is the amount the current text reads as, with "0" standing in when no digit remains. |
| AmountKeypad.TypeDigitShifts | components/AddTransaction.tsx:20-23 | Typing d turns c cents into 10·c + d cents. |
| AmountKeypad.BackspaceShifts | components/AddTransaction.tsx:75-79 | Backspace turns c cents into c div 10 cents, so "0,00" stays "0,00". |
| AmountKeypad.BackspaceUndoesDigit | components/AddTransaction.tsx:20-79 | Backspace right after typing a digit restores the previous display. |
| AmountKeypad.OnKey | components/AddTransaction.tsx:71-81 | Keys other than the digits and Backspace leave the amount unchanged. |
| TransactionTable.Selected | src/app/components/TransactionTable.tsx:58-91 | A row is selected exactly when it is in the input and passes every active filter. |
| TransactionTable.Pipeline | src/app/components/TransactionTable.tsx:58-91 | The filter effect never adds rows. PipelineIsSelection and PipelineIsSubsequence state exactly which rows remain, in order. |
| TransactionTable.PipelineIsSelection | src/app/components/TransactionTable.tsx:58-91 | The five filters applied in a row equal one filter by the conjunction of the active predicates. |
| TransactionTable.PipelineIsSubsequence | src/app/components/TransactionTable.tsx:58-91 | The filtered list is a subsequence of the transactions, in order. |
| TransactionTable.NoFiltersKeepAll | src/app/components/TransactionTable.tsx:61-89 | With every field empty, no row is dropped. |
| TransactionTable.NaNBoundHidesAll | src/app/components/TransactionTable.tsx:67-77 | A minimum or maximum amount that reads as NaN hides every row. |
| TransactionTable.Toggle | src/app/components/TransactionTable.tsx:94-96 | The same key flips the direction; another key starts ascending. |
| TransactionTable.ToggleTwice | src/app/components/TransactionTable.tsx:94-96 | Sorting by a key twice flips the direction twice; the first sort from the initial state is ascending. |
| TransactionTable.HandleSort | src/app/components/TransactionTable.tsx:94-111 | The sorted rows are a permutation of the filtered rows. |
| TransactionTable.SortByDescriptionOrders | src/app/components/TransactionTable.tsx:99-102 | Sorting by description orders the rows in the chosen direction. |
| TransactionTable.SortByDateOrders | src/app/components/TransactionTable.tsx:103-107 | When every date is valid, sorting by date orders the rows by time in the chosen direction. |
| TransactionTable.AmountText | src/app/components/TransactionTable.tsx:241 | The cell starts with '+' exactly for a positive amount, and with '-' exactly for a negative one. |
| TransactionTable.AmountTextReadsBack | src/app/components/TransactionTable.tsx:241 | `parseInt` of the cell gives the amount back. |
| Dashboard.Income | src/app/components/Dashboard.tsx:51 | Income is the sum over all entries of the amount when it is positive and 0 otherwise. |
| Dashboard.Expenses | src/app/components/Dashboard.tsx:52 | Expenses are the sum over all entries of the magnitude when the amount is negative and 0 otherwise. |
| Dashboard.TotalsNonNegative | src/app/components/Dashboard.tsx:51-52 | Income and expenses are never negative. |
| Dashboard.NetIsSum | src/app/components/Dashboard.tsx:51-52 | Income minus expenses is the sum of all amounts. |
| Dashboard.ZeroCountsNowhere | src/app/components/Dashboard.tsx:51-52 | A zero amount counts in neither total. |
| Dashboard.AppendEntry | src/app/components/Dashboard.tsx:51-52 | A new transaction adds its positive part to income and its negative part's magnitude to expenses. |
| Dashboard.Status | src/app/components/Dashboard.tsx:54 | The verdict is good exactly when income ≥ expenses. |
| Dashboard.StatusBySum | src/app/components/Dashboard.tsx:51-54 | The verdict is good exactly when the amounts sum to a non-negative number. |
| Dashboard.Report | src/app/components/Dashboard.tsx:87-92 | One row per transaction, in order, with its fields; a missing description becomes "". |
| Dashboard.ReportAppend | src/app/components/Dashboard.tsx:87-92 | The report of a concatenation is the concatenation of the reports. |
| ActionButton.OpenModal | src/app/components/ActionButton.tsx:38-42 | Sets the type, opens the dialog, closes the menu, and changes nothing else. |
| ActionButton.CloseModal | src/app/components/ActionButton.tsx:44-50 | Closed, no type, no amount, empty description and today's date; the rest is kept. |
| ActionButton.Request | src/app/components/ActionButton.tsx:52-66 | No request exactly when the amount is missing or the description is empty. The amount is +amount with category "Income" exactly for the income dialog; otherwise it is −amount with "Expense", even with no type. |
| ActionButton.Save | src/app/components/ActionButton.tsx:52-94 | A refused save only sets the feedback. A created transaction is appended to the end of the list and the dialog closes. A failure keeps the list and the dialog. |
| ActionButton.SavedAmountCounts | src/app/components/ActionButton.tsx:61-80 | A saved income raises the dashboard's income by the amount. A saved expense raises its expenses by the amount. |
| ImageGallery.Tag | components/ImageGallery.tsx:53-60 | Each collected image carries its transaction's id, title and date. |
| ImageGallery.Collect | components/ImageGallery.tsx:47-66 | Only images are collected, each tagged with one of the transactions. |
| ImageGallery.CollectAppend | components/ImageGallery.tsx:49-64 | Collection goes transaction by transaction, in order. |
| ImageGallery.CollectCount | components/ImageGallery.tsx:49-64 | The number collected is the total number of image documents. |
| ImageGallery.ImageCollected | components/ImageGallery.tsx:49-64 | Every image document of every transaction is collected, tagged with its owner. |
| ImageGallery.OnKey | components/ImageGallery.tsx:89-100 | ArrowRight moves right only below the last index, and ArrowLeft moves left only above 0. Escape clears the selection. Keys are ignored when nothing is selected. |
| ImageGallery.PreviousButton | components/ImageGallery.tsx:174-185 | The left arrow moves back only from an index above 0. |
| ImageGallery.NextButton | components/ImageGallery.tsx:188-199 | The right arrow moves forward only from below the last index. |
| ImageGallery.NavigationInRange | components/ImageGallery.tsx:92-199 | Keys and buttons keep a selected index within 0..len−1. |
| ImageGallery.RightThenLeft | components/ImageGallery.tsx:92-95 | ArrowRight then ArrowLeft returns to the same image. |
| ImageGallery.Counter | components/ImageGallery.tsx:226 | The counter reads, under `parseInt`, as the image's position counted from one, and the count follows " / ". |
| CategoriesApi.Owned | app/api/categories/route.ts:13-16 | Exactly the user's stored categories. |
| CategoriesApi.List | app/api/categories/route.ts:5-27 | 401 exactly without a session and 500 exactly on a failed query. Otherwise a permutation of the user's categories, oldest first. |
| CategoriesApi.ListIsOwnership | app/api/categories/route.ts:13-20 | A category is listed exactly when it is stored and owned by the user. |
| CategoriesApi.Create | app/api/categories/route.ts:29-61 | 401 without a session. 400 exactly when name, icon or type is falsy. 500 exactly when the body is not JSON or the insert fails after a valid body. 201 exactly for a valid body and a successful insert. Nothing is stored unless a category is created. A created category is appended, owned by the user, carrying the body's name, icon and type, the assigned id and creation time, and nameEn defaulting to the name. |
| CategoriesApi.CreatedIsListed | app/api/categories/route.ts:46-54 | A created category appears in its owner's next listing and in no other user's. |
| CategoryEditor.ResetForm | components/CategoryEditor.tsx:151-159 | Not editing; empty names, the expenses icon and EXPENSE. |
| CategoryEditor.HandleEdit | components/CategoryEditor.tsx:141-149 | The category is being edited. Its fields fill the form, with the English name falling back to the name. |
| CategoryEditor.SaveRequestOf | components/CategoryEditor.tsx:87-112 | A blank name sends nothing. Otherwise the form goes by PUT to the edited category's path when editing, and by POST to the collection when not. |
| CategoryEditor.AfterSave | components/CategoryEditor.tsx:87-120 | The form resets only after a request that was sent and succeeded. |
| CategoryEditor.PostIsAccepted | components/CategoryEditor.tsx:104-112 | Every POST the editor sends, with an icon and a type, is accepted by the endpoint. An empty English name is stored as the name. |
| CategoryEditor.ResetFormNeedsName | components/CategoryEditor.tsx:89-92 | A freshly reset form cannot be saved. |
| CategoryEditor.OfType | components/CategoryEditor.tsx:161-162 | Each list holds only categories of its type, drawn from the categories, and every category of that type is in it. |
| CategoryEditor.TypesPartition | components/CategoryEditor.tsx:161-162 | When every category is INCOME or EXPENSE, the two lists together hold each category exactly once. |
| AuthMiddleware.Handle | middleware.ts:5-25 | "/api/auth" paths pass. Exactly an authenticated "/auth" is redirected to "/dashboard". Exactly an unauthenticated "/dashboard…" path is redirected to "/auth". Nothing else is redirected. |
| AuthMiddleware.HomeMatched | middleware.ts:27-29 | Every "/dashboard…" path is inside the matcher and is not an authentication route. |
| AuthMiddleware.SignInMatched | middleware.ts:27-29 | "/auth" is inside the matcher and is not an authentication route. |
| AuthMiddleware.Middleware | middleware.ts:5-29 | Paths outside the matcher pass untouched. Exactly anonymous requests for "/dashboard…" paths are sent to "/auth", exactly a signed-in request for "/auth" is sent to "/dashboard", and there is no other redirect. |
| AuthMiddleware.RedirectsMatchSession | middleware.ts:15-22 | Signed-in users are never sent to "/auth", and anonymous users never to "/dashboard". |
| AuthMiddleware.NoRedirectLoop | middleware.ts:15-22 | Following a redirect never redirects again. |
| AuthMiddleware.ApiRoutesSkipped | middleware.ts:28 | The matcher excludes every "/api" path. |
| Inactivity.Elapsed | src/app/middleware.ts:11-12 | Defined exactly when the cookie parses, as now minus the recorded time. |
| Inactivity.Middleware | src/app/middleware.ts:4-24 | Redirects to "/" exactly for a "/home" path with a cookie that parses and an elapsed time above 3,600,000 ms. Every other response records `now` in a cookie that parses back to `now`. |
| Inactivity.MatchedIsHome | src/app/middleware.ts:26-28 | Every path the matcher admits passes the "/home" test. |
| Inactivity.RefreshKeepsSession | src/app/middleware.ts:7-23 | After a pass, visits within the next hour pass and later "/home" visits are redirected. |
| Inactivity.UnparsableCookieNeverExpires | src/app/middleware.ts:11-14 | A cookie that reads as NaN never causes a redirect. |
| Inactivity.LimitIsStrict | src/app/middleware.ts:9-14 | Exactly one hour passes; one millisecond more redirects. |
| Decimal.ParseInt | src/app/middleware.ts:12 | `parseInt(s, 10)`: a number exactly when, after leading whitespace and one sign, a digit follows. |
| Decimal.ParseIntAuto | app/api/transactions/route.ts:20-21 | `parseInt(s)` without a radix: after the sign, a "0x"/"0X" prefix reads in base 16, and is a number exactly when a hex digit follows it; without the prefix it agrees with `parseInt(s, 10)`. |
| Decimal.ParseIntAutoToString | app/api/transactions/route.ts:20-21 | The decimal text of any integer reads back, without a radix, as that integer. |
| Decimal.HexPrefixAloneIsNaN | app/api/transactions/route.ts:20-21 | `parseInt("0x")` is NaN. |
| Decimal.HexPrefixOne | app/api/transactions/route.ts:20-21 | `parseInt("0x1")` is 1, while `parseInt("0x1", 10)` is 0. |
| Decimal.ParseIntToString | src/app/middleware.ts:12-22 | `parseInt` of the decimal text of an integer gives the integer back. |
| UserInfo.NameParts | app/dashboard/_components/user-info.tsx:24 | No parts exactly when there is no name, and no part contains a space. |
| UserInfo.InitialsOf | app/dashboard/_components/user-info.tsx:24-27 | No initials exactly when there is no name. Shown initials have at most two characters, none lowercase. A one-word name gives its first two characters in uppercase. |
| UserInfo.Render | app/dashboard/_components/user-info.tsx:21-27 | No user shows "User Not Found"; otherwise the avatar shows the initials. |
| UserInfo.CrashIff | app/dashboard/_components/user-info.tsx:24-26 | The initials throw exactly for a name with a space that starts or ends with a space. |
| UserInfo.MiddleNamesIgnored | app/dashboard/_components/user-info.tsx:24-26 | First, middle and last names give the initials of the first and last alone. |

## Left out

- The transaction update and delete handlers (app/api/transactions/[id]/route.ts) are not part of this model. No reversal of a balance is modelled.
- Prisma, NextAuth and `fetch` are replaced by parameters: the session, the stored tables and a `fault` flag for any failed query.
- JavaScript floating point, `parseFloat` and `Number` are left out. Amounts are integers, and the keypad works in whole cents.
- `Intl.NumberFormat` amounts in the PDF rows and totals are not modelled. Neither are date-fns `format`/`parseISO` and `formatDate`/`dateToInputValue` (locale and time-zone behaviour). The CSV date column is taken as given text.
- Translations are left out: default option captions are their translation keys.
- CSV quoting is not modelled: the source does none. The round-trip lemma states its precondition that no cell holds ',' or a newline.
- jsPDF layout, pagination and colours; Chart.js; toasts, dialogs, timers and `location.reload` are left out.
- WHATWG `new URL` parsing is replaced by a simple split: the scheme ends at "://", the host at the first '/', '?' or '#', and the path at '?' or '#'.
- The storage client, its environment checks, the upload call and its error translation are left out. So is `randomUUID`. Their outcome is the `storage` parameter and the `uuid` input.
- `localeCompare` collation is replaced by lexicographic order on code points. The engine's sort algorithm is replaced by a stable insertion sort.
- `toLowerCase`/`toUpperCase` are modelled for ASCII letters only. Multi-character expansions such as 'ß' → "SS" are not modelled.
- The `categoryIcons` object's inherited prototype keys (such as "constructor") are not modelled as table hits.
- The Next.js matcher is modelled as the predicate its pattern denotes. Route compilation and the absolute URL built by `getUrl` are not modelled; redirect targets are paths.
- The category editor's delete and fetch calls, and its icon picker list, are left out because they are I/O or static data.
- TransactionTable.SortByDateOrders: requires every date to be valid. With a NaN date the comparator is not a consistent order, so the engine's result is unspecified.
- Ledger.List: a month or year so large that the window falls outside the JavaScript `Date` range is not modelled as an Invalid Date; the model filters on the computed window instead.
- DetailsList.Truncate: lengths and cut points count Unicode scalar values, while JavaScript `length` and `substring` count UTF-16 code units. The two agree only on text inside the Basic Multilingual Plane.
- DetailsList.PdfRow: its length bounds count Unicode scalar values, not UTF-16 code units, for the same reason.
- Dashboard.Report: the date column is the stored date text; `toLocaleDateString` is not modelled.
- UserInfo.InitialsOf: models the TypeError of an empty first or last word as an outcome value rather than an exception. It also indexes Unicode scalar values where `[0]` and `slice(0, 2)` index UTF-16 code units, so a word that starts outside the Basic Multilingual Plane gives different initials (for "😀ab" the source shows "😀", the model "😀A").
- UserInfo.MiddleNamesIgnored: the same UTF-16 difference applies to the first and last words.
- Ledger.Create: the body's date arrives as a calendar instant. `new Date(date)` parsing is not modelled: date-only ISO text read as UTC and the 500 of an Invalid Date are folded into the `date` input and the `fault` flag.

## Findings

| source | as written | input that shows it | evidently intended | confidence | as-written member | corrected member |
|---|---|---|---|---|---|---|
| app/api/transactions/route.ts:21 | The month window ends at `new Date(year, month, 0)`, the midnight that starts the last day of the month, and the filter uses `lte`. | A transaction at 10:00 on 31 January 2024, listed with month=1 and year=2024, is left out. | The whole month, through its last millisecond. | not executed | Calendar.LastDayExcluded | Calendar.InWholeMonthIff |
| components/Details.tsx:444-460 | The option search over INCOME then EXPENSE options runs before the "other"-by-type branch, so the income default "other" always matches first. | An EXPENSE transaction in category "other" shows "/icons/incomeColor.svg". | "other" shows the icon of the transaction's type. | not executed | DetailsCategories.OtherExpenseShowsIncomeIcon | DetailsCategories.OtherFollowsType |
| components/Details.tsx:899-901 | Whenever the text is longer than 5 characters, the mask inserts '/' at index 5, even when one is already there. | Typing "0" after "12/03/2" gives "12/03//20", and the complete "12/03/2024" becomes "12/03//202". | A slash at index 5 only when it is missing, leaving a complete date unchanged. | not executed | DateMask.TypingPastTheMonthBreaks | DateMask.FixedTypingExtends |
