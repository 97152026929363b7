# LibReserve front end: a verified model of its decision logic

LibReserve is a Next.js client for a library-reservation REST API. Members
browse the catalogue and reserve books for a borrow day and a pickup day. They
can edit or cancel up to three reservations. Admins manage the book stock,
import books in bulk from a CSV file, and review every reservation.

This project models the deterministic logic inside the client's components
and helpers, and proves what that logic guarantees. The logic covers:

- the reservation date rules and the three forms that apply them;
- the admin's reservation view: its status classifier, filter, search,
  five-key sort, counters and inline edit row;
- the catalogue filters and the stock buttons;
- the CSV import: the quote-aware line splitter, header normalisation, the
  required-column check, row acceptance, the staged rows and the "add all"
  loop;
- cover resolution;
- the request helper: how it builds the address and headers, and how it
  chooses an error message;
- how the API base address is selected;
- the navigation header;
- the sign-up page;
- the session and role guards of the two reservation pages.

The models take the source's own form:

- State a component keeps (`useState`) is a Dafny `class`. Its fields are
  updated by methods with `modifies` clauses.
- Loops become `method`s with loop invariants:
  - the CSV line splitter's character loop (`CsvLine.ParseLine`);
  - the data-row loop (`CsvUpload.ParseRows`);
  - the "add all" loop (`CsvUpload.SendAll`).
- Each loop is proved equal to a recursive specification function, and the
  properties are proved about that function.
- The `||` chains, `map`s and `filter`s are functions.

Each asynchronous handler is split in two:

- a *start* method: the state changes made before the request, returning the
  request it issues;
- a *settle* method: the change the request's outcome makes.

The request itself is a value (`Endpoints.Request`), and its outcome is an
input (`Interfaces.Outcome`). Other inputs are parameters too:

- "today" is a day number;
- dates read from the backend carry the day number and instant the date
  library derives from them;
- a draft date typed by the user is a string, and `dayOf` is what the date
  library reads from it (`None` for an unreadable date).

Modules:

| module | models |
|---|---|
| `Interfaces` | the record types of src/interfaces.ts, plus `Option`, `Result` and `Outcome` |
| `Text` | the JavaScript string built-ins the components use |
| `Seqs` | `Array.prototype.filter` and subsequences |
| `ReservationRules` | the date rules the three reservation forms share |
| `ReservationForm` | src/component/ReservationForm.tsx |
| `ReservationList` | src/component/ReservationList.tsx |
| `AdminReservations` | src/component/AdminReservationsManagement.tsx |
| `Catalogue` | the filters of src/component/BooksListClient.tsx and src/component/BookManagementTableClient.tsx |
| `BookTable` | the stock and delete handlers of src/component/BookManagementTable.tsx and src/component/BookManagementTableClient.tsx |
| `CsvLine` | `parseCSVLine` of src/component/CSVBookUpload.tsx |
| `CsvUpload` | the rest of src/component/CSVBookUpload.tsx |
| `CsvRoundTrip` | exporting books in the documented CSV format, and reading them back |
| `BookCovers` | src/libs/bookCovers.ts |
| `ApiClient` | `apiFetch` of src/libs/apiClient.ts |
| `Config` | src/libs/config.ts |
| `Endpoints` | the wrappers of src/libs/books.ts, src/libs/reservations.ts and src/libs/auth.ts, as request values |
| `HeaderClient` | src/component/HeaderClient.tsx |
| `RegisterPage` | src/app/register/page.tsx |
| `ReservationPages` | src/app/member/reservations/page.tsx and src/app/admin/reservations/page.tsx |

The model follows the code where the system's design description says
otherwise:

- **The edit rows accept a date the library cannot read.** Only the create
  form checks that both dates are present. In the two edit rows a cleared or
  unreadable draft makes `isBefore` false, so neither rule fires and the
  request is sent (`ReservationRules.EditAcceptsUnreadableDrafts`).
- **The member's list deletes without a confirmation step.** Only the admin
  screen asks for one.
- **Covers come from a table, then a rotation.** The code does not use a
  single fixed fallback cover. It first looks the title up in a table, then
  rotates through six bundled images by list position.
- **The member page has no null guard.** It does not pass a null book
  through; it fails on one (Finding 2). The model's corrected page keeps
  null books, as the admin page does.
- **The CSV import departs from RFC 4180:**
  - it splits the file at line feeds before it parses quotes;
  - it trims every field;
  - a stray quote anywhere in a field toggles the quoted state;
  - after splitting, one quote is stripped from each end of every value, so
    a value that starts or ends with an escaped quote loses it (`"""x"""`
    splits to `"x"` and is staged as `x`).
- **The CSV import accepts negative amounts.** The `parseInt(...) || 1`
  rule replaces only an empty, unreadable or zero amount, so a negative
  amount is staged as it is, and so is a negative number typed into the
  review table.

## Model

| member | source | states |
|---|---|---|
| ReservationRules.DatesAcceptable | src/component/ReservationForm.tsx:40-48 | for readable dates, the rules pass exactly when today <= borrow <= pickup, so same-day dates pass |
| ReservationRules.DateError | src/component/ReservationList.tsx:46-57 | no message iff the rules pass; the borrow-in-the-past message iff borrow is before today; the pickup message iff only pickup is before borrow |
| ReservationRules.FormError | src/component/ReservationForm.tsx:32-48 | the missing-dates message iff a date field is empty; with both filled in it is the shared rule message; accepted iff both are present and the rules pass |
| ReservationRules.FormAcceptsExactly | src/component/ReservationForm.tsx:40-48 | readable dates are accepted by the create form iff today <= borrow <= pickup |
| ReservationRules.EditAcceptsUnreadableDrafts | src/component/ReservationList.tsx:46-57 | an unreadable borrow draft never fails a rule |
| ReservationForm.InitialForm | src/component/ReservationForm.tsx:17-21 | both dates empty; the first book preselected, or no book when the list is empty |
| ReservationForm.Form.constructor | src/component/ReservationForm.tsx:17-22 | the form starts as the initial form, with no error |
| ReservationForm.Form.SelectBook | src/component/ReservationForm.tsx:88 | only the selected book changes |
| ReservationForm.Form.SetBorrowDate | src/component/ReservationForm.tsx:106 | only the borrow date changes |
| ReservationForm.Form.SetPickupDate | src/component/ReservationForm.tsx:118 | only the pickup date changes |
| ReservationForm.Form.Submit | src/component/ReservationForm.tsx:27-52 | the error becomes the first failed check in presence, borrow, pickup order; a request is sent iff no check fails, and it carries the whole form |
| ReservationForm.Form.SettleCreate | src/component/ReservationForm.tsx:52-59 | success resets from the form captured at submit: its book is restored, even if another was selected meanwhile, and both dates are emptied; failure keeps the form and shows the message |
| ReservationList.EditRow.constructor | src/component/ReservationList.tsx:26-29 | no row open, empty drafts, no error |
| ReservationList.EditRow.StartEdit | src/component/ReservationList.tsx:32-36 | opens the row with each draft set to the date text before "T"; the error is not touched (outside the modifies frame) |
| ReservationList.EditRow.CancelEdit | src/component/ReservationList.tsx:38-42 | closes the row and empties both drafts; the error is not touched |
| ReservationList.EditRow.SetDraftBorrow | src/component/ReservationList.tsx:155 | only the borrow draft changes |
| ReservationList.EditRow.SetDraftPickup | src/component/ReservationList.tsx:172 | only the pickup draft changes |
| ReservationList.EditRow.SubmitEdit | src/component/ReservationList.tsx:44-65 | no effect without an open row; otherwise the error is the shared rule message; the update is sent iff the rules pass, with the drafts verbatim |
| ReservationList.EditRow.SettleEdit | src/component/ReservationList.tsx:62-70 | success closes the row and keeps the error; failure shows the message and keeps the row and drafts |
| ReservationList.EditRow.StartDelete | src/component/ReservationList.tsx:74-79 | clears the error and sends the delete at once, with no confirmation |
| ReservationList.EditRow.SettleDelete | src/component/ReservationList.tsx:80-82 | a failure's message is shown; success leaves the error |
| AdminReservations.StatusOf | src/component/AdminReservationsManagement.tsx:51-59 | past iff pickup < today; active iff pickup >= today and borrow <= today; upcoming iff pickup >= today and borrow > today |
| AdminReservations.KeyLeTotal | src/component/AdminReservationsManagement.tsx:89-112 | any two sort keys are comparable |
| AdminReservations.KeyLeTransitive | src/component/AdminReservationsManagement.tsx:89-112 | the key order is transitive |
| AdminReservations.PrecedesTotal | src/component/AdminReservationsManagement.tsx:114-122 | the comparator orders any two reservations, in either direction |
| AdminReservations.PrecedesTransitive | src/component/AdminReservationsManagement.tsx:114-122 | the comparator is transitive in either direction |
| AdminReservations.SortedCons | src/component/AdminReservationsManagement.tsx:85-123 | an element that precedes every element of a sorted list can be put in front of it |
| AdminReservations.Insert | src/component/AdminReservationsManagement.tsx:85-123 | inserting into a sorted list adds exactly that element and keeps it sorted |
| AdminReservations.SortReservations | src/component/AdminReservationsManagement.tsx:85-123 | the sort returns a permutation of its input, ordered by the chosen key and direction |
| AdminReservations.ViewSpec | src/component/AdminReservationsManagement.tsx:62-125 | the rows shown are a sub-multiset of the input, holding exactly the reservations that pass the status filter and the search, each as often as the filter keeps it, sorted by the selected key |
| AdminReservations.UnfilteredViewIsPermutation | src/component/AdminReservationsManagement.tsx:66-82 | with every status and no search, the rows shown are a permutation of all reservations |
| AdminReservations.CountStatus | src/component/AdminReservationsManagement.tsx:129-141 | a counter never exceeds the number of reservations |
| AdminReservations.StatsPartition | src/component/AdminReservationsManagement.tsx:129-141 | upcoming + active + past = total |
| AdminReservations.CountIsFilteredLength | src/component/AdminReservationsManagement.tsx:66-70 | each status counter equals the number of rows that status's filter shows |
| AdminReservations.Editor.constructor | src/component/AdminReservationsManagement.tsx:38-41 | no row open, empty drafts, no error |
| AdminReservations.Editor.StartEdit | src/component/AdminReservationsManagement.tsx:143-148 | opens the row with each draft set to the date text before "T", and clears the error |
| AdminReservations.Editor.CancelEdit | src/component/AdminReservationsManagement.tsx:150-155 | closes the row, empties both drafts and clears the error |
| AdminReservations.Editor.SetDraftBorrow | src/component/AdminReservationsManagement.tsx:485 | only the borrow draft changes |
| AdminReservations.Editor.SetDraftPickup | src/component/AdminReservationsManagement.tsx:509 | only the pickup draft changes |
| AdminReservations.Editor.SubmitEdit | src/component/AdminReservationsManagement.tsx:157-178 | no effect without an open row; otherwise the error is the shared rule message; the update is sent iff the rules pass, with the drafts verbatim |
| AdminReservations.Editor.SettleEdit | src/component/AdminReservationsManagement.tsx:179-185 | success resets the whole edit state, error included; failure shows the message and keeps the row |
| AdminReservations.Editor.StartDelete | src/component/AdminReservationsManagement.tsx:190-196 | a declined confirmation does nothing; a confirmed one clears the error and sends the delete |
| AdminReservations.Editor.SettleDelete | src/component/AdminReservationsManagement.tsx:199-202 | a failure's message is shown; success leaves the error |
| Catalogue.InsertDistinct | src/component/BooksListClient.tsx:18-21 | adding a name to a strictly sorted list keeps it strictly sorted and adds exactly that name |
| Catalogue.Publishers | src/component/BooksListClient.tsx:18-21 | the publisher list is sorted and holds no repeats |
| Catalogue.PublishersSpec | src/component/BookManagementTableClient.tsx:24-27 | a name is in the publisher list iff some book has that publisher |
| Catalogue.ShownSpec | src/component/BooksListClient.tsx:24-45 | a book is shown iff it passes the search, publisher and availability filters, and the shown books are a subsequence of the list, in its order |
| Catalogue.NegativeOnlyUnderAll | src/component/BooksListClient.tsx:38-41 | a book with a negative count passes the availability filter only under "all" |
| Catalogue.ClearedShowsAll | src/component/BookManagementTableClient.tsx:30-51 | with the cleared filters the whole list is shown, in order |
| Catalogue.FilterControls.constructor | src/component/BooksListClient.tsx:13-15 | the controls start cleared |
| Catalogue.FilterControls.Clear | src/component/BooksListClient.tsx:115-121 | clearing restores "", "" and "all", after which the clear button is hidden |
| BookTable.NextStock | src/component/BookManagementTable.tsx:39 | the new stock is one step from the shown count, clamped at zero, and never negative |
| BookTable.NextStockSteps | src/component/BookManagementTableClient.tsx:71-72 | a decrement at zero stays zero; an increment adds one; a decrement of a positive count subtracts one |
| BookTable.Table.constructor | src/component/BookManagementTable.tsx:16-18 | nothing pending, no error |
| BookTable.Table.StartStock | src/component/BookManagementTable.tsx:38-44 | marks the row pending, clears the error and sends the clamped absolute count; that row's delete button is now disabled |
| BookTable.Table.StartDelete | src/component/BookManagementTable.tsx:20-27 | marks the row pending, clears the error and sends the delete |
| BookTable.Table.Settle | src/component/BookManagementTable.tsx:28-34 | whatever the outcome, nothing is pending and no delete button is disabled; a failure's message is shown |
| CsvLine.ParseLine | src/component/CSVBookUpload.tsx:29-59 | the character loop returns the fields of the line's two-state scan |
| CsvLine.ScanAt | src/component/CSVBookUpload.tsx:38-53 | one step of the scan at a position: a doubled quote inside quotes, a toggling quote, an unquoted comma, any other character |
| CsvLine.ScanCount | src/component/CSVBookUpload.tsx:47-57 | the scan ends with one more field than the commas it reads outside quotes |
| CsvLine.FieldCount | src/component/CSVBookUpload.tsx:47-57 | a line has at least one field, and exactly one more than its unquoted commas |
| CsvLine.ScanKeepsFields | src/component/CSVBookUpload.tsx:49 | fields already finished are never changed |
| CsvLine.FieldsTrimmed | src/component/CSVBookUpload.tsx:49-57 | every field comes out trimmed |
| CsvLine.ScanQuoteFree | src/component/CSVBookUpload.tsx:38-46 | a scan over text without a doubled quote adds no quote to any field |
| CsvLine.QuotesOnlyFromPairs | src/component/CSVBookUpload.tsx:38-46 | a line without a doubled quote yields fields without quotes |
| CsvLine.ScanDoubledQuote | src/component/CSVBookUpload.tsx:39-42 | inside quotes a doubled quote adds one quote and consumes both |
| CsvLine.ScanClosingQuote | src/component/CSVBookUpload.tsx:43-46 | inside quotes a lone quote closes the quotes |
| CsvLine.ScanEscaped | src/component/CSVBookUpload.tsx:38-53 | an escaped field and its closing quote are read back as the field |
| CsvLine.ScanQuoted | src/component/CSVBookUpload.tsx:38-53 | a quoted field is read back as the field, commas and quotes included |
| CsvLine.ScanComma | src/component/CSVBookUpload.tsx:47-50 | an unquoted comma finishes the trimmed field |
| CsvLine.QuotedRoundTrip | src/component/CSVBookUpload.tsx:29-59 | splitting a line of quoted, escaped fields gives the fields back, for any trimmed fields |
| CsvLine.ScanPlainLine | src/component/CSVBookUpload.tsx:47-57 | plain fields joined by commas are read back one by one |
| CsvLine.PlainRoundTrip | src/component/CSVBookUpload.tsx:29-59 | splitting plain fields joined by commas gives the fields back |
| CsvUpload.Lines | src/component/CSVBookUpload.tsx:62 | only non-blank lines are kept |
| CsvUpload.DropSpaces | src/component/CSVBookUpload.tsx:69 | the result has no whitespace and only characters of the input |
| CsvUpload.DropQuotes | src/component/CSVBookUpload.tsx:69 | the result has no quote and only characters of the input |
| CsvUpload.NormalizeHeader | src/component/CSVBookUpload.tsx:68-70 | a normalised name has no upper-case letter, whitespace or quote |
| CsvUpload.NormalizeFixes | src/component/CSVBookUpload.tsx:68-70 | a name already in normal form is left alone |
| CsvUpload.NormalizeIdempotent | src/component/CSVBookUpload.tsx:68-70 | normalising twice is normalising once |
| CsvUpload.Headers | src/component/CSVBookUpload.tsx:68-70 | one normalised name per field of the header line |
| CsvUpload.MissingColumnsOrdered | src/component/CSVBookUpload.tsx:83-85 | missing columns are listed in the expected order |
| CsvUpload.MissingColumnsSpec | src/component/CSVBookUpload.tsx:73-85 | a column is reported missing iff it is expected and absent from the header |
| CsvUpload.StripQuotesKeeps | src/component/CSVBookUpload.tsx:95-97 | a value without a quote at either end is unchanged |
| CsvUpload.StripQuotesUnwraps | src/component/CSVBookUpload.tsx:95-97 | one surrounding pair of quotes is removed |
| CsvUpload.RowValues | src/component/CSVBookUpload.tsx:95-97 | one value per field of the row |
| CsvUpload.CellSpec | src/component/CSVBookUpload.tsx:102-105 | a column's value is "" when the header lacks it, else the value under its last occurrence |
| CsvUpload.AmountSpec | src/component/CSVBookUpload.tsx:113 | the amount is never 0: an empty, unreadable or zero cell gives 1, any other number is kept |
| CsvUpload.AmountDecimal | src/component/CSVBookUpload.tsx:113 | a printed positive amount is read back as itself |
| CsvUpload.RowBook | src/component/CSVBookUpload.tsx:98-126 | a row with the wrong field count yields nothing; a row that yields a book yields a complete one with a non-zero amount |
| CsvUpload.Staged | src/component/CSVBookUpload.tsx:118-126 | a row adds its book or nothing |
| CsvUpload.CollectAppend | src/component/CSVBookUpload.tsx:94-127 | rows are read independently and their books kept in row order |
| CsvUpload.CollectSpec | src/component/CSVBookUpload.tsx:94-127 | a book is kept iff some row yields it |
| CsvUpload.RowBooks | src/component/CSVBookUpload.tsx:94-127 | never more books than data rows |
| CsvUpload.RowBooksSpec | src/component/CSVBookUpload.tsx:94-127 | a book is staged iff some data row yields it |
| CsvUpload.RowBooksComplete | src/component/CSVBookUpload.tsx:118-126 | every staged book has all five text fields |
| CsvUpload.RowBooksCons | src/component/CSVBookUpload.tsx:94-127 | the first row's book, if any, comes first |
| CsvUpload.RowBooksSnoc | src/component/CSVBookUpload.tsx:94-127 | a further row appends its book, if any, at the end |
| CsvUpload.CsvBooksSpec | src/component/CSVBookUpload.tsx:61-130 | fewer than two non-blank lines gives the too-few-lines error; otherwise an error iff a column is missing, with the missing columns listed; otherwise the books of the data rows, all complete |
| CsvUpload.ParseRow | src/component/CSVBookUpload.tsx:95-126 | one pass of the row loop yields the row's book |
| CsvUpload.ReadHeaders | src/component/CSVBookUpload.tsx:68-70 | the header row's normalised names |
| CsvUpload.ParseRows | src/component/CSVBookUpload.tsx:93-129 | the row loop returns the books of every line after the header |
| CsvUpload.ParseCsv | src/component/CSVBookUpload.tsx:61-130 | `parseCSV` returns or throws what the file's text specifies |
| CsvUpload.TypedAmount | src/component/CSVBookUpload.tsx:375-381 | the typed number, or 0 when it cannot be read |
| CsvUpload.Edited | src/component/CSVBookUpload.tsx:177-187 | the edited field takes the new value and every other field is kept |
| CsvUpload.SendAll | src/component/CSVBookUpload.tsx:201-215 | one create request per staged book, in order; the success count is the number of successful outcomes, and successes + failures = number of books |
| CsvUpload.Staging.constructor | src/component/CSVBookUpload.tsx:24-26 | nothing staged, no error |
| CsvUpload.Staging.ChooseFile | src/component/CSVBookUpload.tsx:132-144 | the file is read iff its name ends in ".csv"; otherwise the not-CSV error is shown |
| CsvUpload.Staging.ReadFailure | src/component/CSVBookUpload.tsx:168-173 | the read error is shown |
| CsvUpload.Staging.Loaded | src/component/CSVBookUpload.tsx:145-167 | a parse error is shown and the staging kept; no usable row shows the no-valid-books error; otherwise the parsed books are staged and the error cleared |
| CsvUpload.Staging.ChangeBook | src/component/CSVBookUpload.tsx:177-187 | only the entry at the index changes, by the edit |
| CsvUpload.Staging.DeleteBook | src/component/CSVBookUpload.tsx:189-191 | exactly the given position is removed and the rest keep their order; an index out of range removes nothing |
| CsvUpload.Staging.AddAll | src/component/CSVBookUpload.tsx:193-224 | nothing is sent when nothing is staged; otherwise every staged book is sent in order, successes + failures = number of books, and the staging ends empty |
| CsvUpload.Staging.Clear | src/component/CSVBookUpload.tsx:234-240 | nothing staged, no error |
| CsvRoundTrip.HeaderLineFields | src/component/CSVBookUpload.tsx:287 | the documented header line splits into the six documented names |
| CsvRoundTrip.HeaderLineHeaders | src/component/CSVBookUpload.tsx:68-80 | the documented header normalises to exactly the expected columns |
| CsvRoundTrip.NothingMissing | src/component/CSVBookUpload.tsx:83-90 | the expected columns miss nothing |
| CsvRoundTrip.CellAt | src/component/CSVBookUpload.tsx:102-105 | with distinct column names, each column reads its own value |
| CsvRoundTrip.RowRoundTrip | src/component/CSVBookUpload.tsx:94-127 | a book written as a quoted row is read back as the same book |
| CsvRoundTrip.RowsRoundTrip | src/component/CSVBookUpload.tsx:94-127 | books written as rows are read back as the same books, in order |
| CsvRoundTrip.LinesOfJoin | src/component/CSVBookUpload.tsx:62 | non-blank lines joined with line feeds are split back into the same lines |
| CsvRoundTrip.CsvBooksOfLines | src/component/CSVBookUpload.tsx:61-92 | a file whose header has every column imports the books of its rows |
| CsvRoundTrip.ImportExport | src/component/CSVBookUpload.tsx:61-130 | importing a file written in the documented format gives back exactly the books written, in order |
| CsvRoundTrip.ExportNothing | src/component/CSVBookUpload.tsx:62-65 | a file holding only the header is rejected as too short |
| BookCovers.TableCover | src/libs/bookCovers.ts:27-30 | a table entry is found iff the title is non-empty and its lower-cased form is a key; it is that key's cover |
| BookCovers.AttachCover | src/libs/bookCovers.ts:26-32 | only the cover changes, and it is never empty: an own cover is kept, else the table's cover, else the bundled image at position mod 6 |
| BookCovers.CoverIsBundled | src/libs/bookCovers.ts:28-31 | a book without its own cover always gets a bundled image |
| BookCovers.AttachCoverIdempotent | src/libs/bookCovers.ts:29 | resolving twice, at any positions, is resolving once |
| BookCovers.TableIgnoresCase | src/libs/bookCovers.ts:27 | titles equal up to letter case get the same cover |
| BookCovers.AttachCovers | src/libs/bookCovers.ts:22-24 | same length and order, each book resolved at its own position |
| BookCovers.NeighboursDiffer | src/libs/bookCovers.ts:31 | two neighbouring books that both fall back get different images |
| BookCovers.ConstructorTitleGetsFunction | src/libs/bookCovers.ts:27-31 | as written, a coverless book titled "Constructor" gets an inherited object member as its cover |
| BookCovers.LowerCaseInherited | src/libs/bookCovers.ts:30 | only "constructor" and "\_\_proto\_\_" among the inherited members are lower-case keys |
| BookCovers.AsWrittenAgrees | src/libs/bookCovers.ts:26-32 | apart from those two titles, the code as written and the corrected lookup agree |
| ApiClient.RequestUrl | src/libs/apiClient.ts:12 | the address is the base followed by the path, with a slash inserted exactly when the path lacks one |
| ApiClient.LeadingSlashOptional | src/libs/apiClient.ts:12 | a path with or without its leading slash gives the same address |
| ApiClient.MergedHeaders | src/libs/apiClient.ts:13-20 | Content-Type defaults to JSON and caller headers override it; the bearer token is set iff there is a token and authentication is not skipped, replacing the caller's; nothing else is added |
| ApiClient.ErrorMessageSpec | src/libs/apiClient.ts:28-38 | the message is never empty and is the first present of error, message and msg; a body that is not JSON falls through to the status text, then the status |
| ApiClient.StatusInMessage | src/libs/apiClient.ts:37 | the status can be read back from the last-resort message |
| ApiClient.Outcome | src/libs/apiClient.ts:30-41 | an ok status returns the body; any other status throws a non-empty message |
| Config.ServerBase | src/libs/config.ts:1-4 | the first non-empty of the two variables, else the local default; never empty |
| Config.StripTrailingSlash | src/libs/config.ts:6 | at most one character, a trailing slash, is removed from the end |
| Config.StripUndoesSlash | src/libs/config.ts:6 | removing the slash undoes appending one |
| Config.StripKeepsBare | src/libs/config.ts:6 | an address without a trailing slash is unchanged |
| Config.DefaultApiBase | src/libs/config.ts:1-6 | with neither variable set, the base is the local default |
| Config.ConfiguredSlashIgnored | src/libs/config.ts:1-6 | a configured base with one trailing slash means the same as without it |
| Endpoints.RouteOf | src/libs/reservations.ts:27-55 | every path is absolute; the two deletes use DELETE and exactly the three creates use POST |
| HeaderClient.RoleOf | src/component/HeaderClient.tsx:28 | admin iff the session's user has the role "admin"; anyone else is a member |
| HeaderClient.LinksFor | src/component/HeaderClient.tsx:9-33 | no links iff there is no session; otherwise three links ending with the demo link, the first two under the role's own area |
| HeaderClient.PrefixesClash | src/component/HeaderClient.tsx:50 | addresses that differ at some position cannot both prefix a path |
| HeaderClient.AtMostOneActive | src/component/HeaderClient.tsx:45-53 | no path highlights two visible links |
| HeaderClient.Menu.constructor | src/component/HeaderClient.tsx:27 | the menu starts closed |
| HeaderClient.Menu.Toggle | src/component/HeaderClient.tsx:63 | the account button flips the menu |
| HeaderClient.Menu.Close | src/component/HeaderClient.tsx:74 | a menu link closes the menu |
| RegisterPage.WithField | src/app/register/page.tsx:19-24 | only the named field takes the new value |
| RegisterPage.GenericNotRejection | src/app/register/page.tsx:35-40 | the generic failure text is never reworded |
| RegisterPage.ShownError | src/app/register/page.tsx:34-41 | a non-Error throw shows the generic failure; a message containing "Request rejected" is replaced by the friendly advice; any other message is shown verbatim |
| RegisterPage.BareRejectionIsReworded | src/app/register/page.tsx:37-41 | a failed response whose body only says success: false reaches the visitor as the friendly advice |
| RegisterPage.Page.constructor | src/app/register/page.tsx:8-16 | the form starts with role "member" and every other field empty, with no messages |
| RegisterPage.Page.Change | src/app/register/page.tsx:19-24 | only the changed field of the form changes |
| RegisterPage.Page.Submit | src/app/register/page.tsx:26-32 | both messages are cleared and the form is sent as it stands, without a token |
| RegisterPage.Page.Settle | src/app/register/page.tsx:32-42 | success shows the welcome text; a failure shows the shown error |
| ReservationPages.WithCovers | src/app/admin/reservations/page.tsx:18-21 | same length, order and non-book fields; a missing book stays missing; a present book gets its cover at its position |
| ReservationPages.CoversEverywhere | src/app/admin/reservations/page.tsx:20 | every present book ends up with a cover |
| ReservationPages.WithCoversIdempotent | src/app/admin/reservations/page.tsx:18-21 | preparing a prepared list changes nothing |
| ReservationPages.MemberTitleCount | src/app/member/reservations/page.tsx:49 | the reservation count can be read back from the list's title |
| ReservationPages.MemberPage | src/app/member/reservations/page.tsx:12-27 | no token redirects to sign-in; a role other than member redirects to the admin page; otherwise the books and reservations get covers and the title shows the count |
| ReservationPages.MemberReservationsAsWritten | src/app/member/reservations/page.tsx:24-27 | as written, the mapping succeeds iff every reservation has a book |
| ReservationPages.DeletedBookBreaksMemberPage | src/app/member/reservations/page.tsx:24-27 | one reservation of a deleted book makes the mapping as written fail |
| ReservationPages.AsWrittenAgreesWhenBooksPresent | src/app/member/reservations/page.tsx:24-27 | when every book is present the mapping as written equals the corrected one |
| ReservationPages.AdminPage | src/app/admin/reservations/page.tsx:10-21 | no token redirects to sign-in; a role other than admin redirects to the member page; otherwise the reservations get covers |
| ReservationPages.RolesMeet | src/app/member/reservations/page.tsx:12-17 | a signed-in member or admin is sent to the page of their own role, which renders |
| Text.Lower | src/component/BooksListClient.tsx:29-32 | lower-casing keeps the length and maps each character |
| Text.LowerIsLower | src/component/AdminReservationsManagement.tsx:74-82 | a lower-cased text has no upper-case letter, and lower-casing twice is lower-casing once |
| Text.Trim | src/component/CSVBookUpload.tsx:49 | a trimmed text has no whitespace at either end and is unchanged if it had none |
| Text.TrimEmptyIffBlank | src/component/CSVBookUpload.tsx:62 | a line is dropped as blank iff every character is whitespace |
| Text.BeforeFirst | src/component/AdminReservationsManagement.tsx:145-146 | the longest prefix without "T", followed by "T" if anything remains |
| Text.JoinSplit | src/component/CSVBookUpload.tsx:62 | joining the pieces of a split with the separator gives back the text |
| Text.SplitJoin | src/component/CSVBookUpload.tsx:62 | splitting pieces joined by a separator they lack gives the pieces back |
| Text.StrLeTotal | src/component/BooksListClient.tsx:20 | the default string order compares any two strings |
| Text.StrLeAntisymmetric | src/component/BooksListClient.tsx:20 | strings ordered both ways are equal |
| Text.StrLeTransitive | src/component/BooksListClient.tsx:20 | the default string order is transitive |
| Text.DecimalStringValue | src/libs/apiClient.ts:37 | the printed digits of a number denote that number |
| Text.ParseIntDecimal | src/component/CSVBookUpload.tsx:113 | `parseInt` reads a printed number back as itself |
| Text.ParseIntPrefix | src/component/CSVBookUpload.tsx:113 | `parseInt` reads a printed number up to the first non-digit after it |
| Seqs.FilterSpec | src/component/BooksListClient.tsx:25 | the filter keeps exactly the elements that satisfy the predicate |
| Seqs.FilterSubMultiset | src/component/AdminReservationsManagement.tsx:63-82 | the filter takes no element more often than the input holds it |
| Seqs.FilterIsSubsequence | src/component/BooksListClient.tsx:25 | the filter's result is a subsequence of its input |
| Seqs.FilterAppend | src/component/BooksListClient.tsx:25 | filtering distributes over concatenation |

## Left out

- Network I/O: `fetch`, `response.json()` and the endpoint wrappers are not
  modelled as calls. A request is a value (`Endpoints.Request`), and its
  response or outcome is an input.
- The wrappers that only fetch (`getBooks`, `getBookById`, `getReservations`,
  `getReservationById`, `getProfile`, `updateBook`, `loginUser`) are not
  modelled. No modelled component issues them, and each is one call with a
  fixed path.
- JSON bodies are reduced to the four members the error chain reads, and
  each is a string or absent. A non-string `error`, `message` or `msg` (an
  object, a number) is not modelled.
- ApiClient.MergedHeaders is a function returning the merged header map. It
  does not mutate a header object in place, because the object is fresh and
  nothing else refers to it. Headers given as a `Headers` instance or an
  array of pairs are not modelled.
- The date library: parsing, local-time `startOf("day")` and time zones are
  not modelled. Reservation dates carry their day number and instant. A
  typed draft is read by a `dayOf` parameter, and "today" is a parameter.
- Letter case: `toLowerCase` is modelled on the ASCII letters only. Other
  scripts' case mappings are left out because the code's behaviour there
  depends on Unicode tables.
- String order: `localeCompare` in the admin sort and the default
  `Array.prototype.sort` of the publisher list are modelled as lexicographic
  order on characters. Locale collation and UTF-16 code-unit order for
  characters outside the Basic Multilingual Plane differ from it.
- Numbers: `parseInt` is modelled on integers. Digit runs long enough to
  lose precision as a floating-point number are not modelled, and neither
  is the `Number(book.availableAmount)` conversion in `handleAddAll`, which
  is the identity on the integers staged.
- React scheduling: `useTransition`, toasts, `router.refresh`, the file
  input reset and the `isPending` flag are not modelled. `isPending` appears
  only as a parameter of the predicates that disable buttons.
- The browser's confirmation dialog is the `confirmed` parameter of
  `AdminReservations.Editor.StartDelete`.
- `FileReader` is not modelled. `CsvUpload.Staging.ChooseFile` says whether
  reading starts, and `Loaded` and `ReadFailure` are its two callbacks. A
  change event without a file does nothing and is not modelled.
- The outer `try`/`catch` of `handleAddAll` is not modelled: every request
  failure is caught inside the loop, and nothing else in the block throws.
- CsvUpload.Staging.ChangeBook: requires an index of an existing row, which
  is the only index the review table passes. Writing past the end of the
  array is not modelled.
- The user menu's name label (`session.user?.name ?? "User"`) and all
  markup are not modelled.
- next-auth: the session is an input. A redirect is a returned
  `ReservationPages.Page` value, not a thrown navigation.

## Findings

| source | as written | input that shows it | evidently intended | confidence | as-written member | corrected member |
|---|---|---|---|---|---|---|
| src/libs/bookCovers.ts:27-31 | the lower-cased title is looked up with `coverMap[key]` on a plain object, which also finds members inherited from `Object.prototype` | a book without a cover titled "Constructor" (or "\_\_proto\_\_") gets the `Object` function (or the prototype object) as its cover instead of an image path | only the table's own entries are found, so such a book falls back to a bundled image | not executed | BookCovers.ConstructorTitleGetsFunction | BookCovers.AttachCover |
| src/app/member/reservations/page.tsx:24-27 | every reservation's book is passed to `attachBookCover` with no null check, and the helper reads `book.title` | a reservation whose book was deleted (its `book` is null) makes the member's page throw | a missing book stays missing, as on the admin page (src/app/admin/reservations/page.tsx:20) | not executed | ReservationPages.MemberReservationsAsWritten | ReservationPages.WithCovers |
