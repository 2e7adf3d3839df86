# Event guest list and door check-in: a Dafny model

The application runs the guest list of an event and the check-in at the door. Organisers
create an event through the `create-event` edge function, add guests by hand or by CSV
import, export the roster as CSV, manage the event's categories and edit its details.
Operators are created through the `create-operator` edge function; an admin can reset an
operator's password and switch an operator off. Each guest has an access card whose QR code
holds the card page's URL. The scanner page reads that URL, or the first eight characters of
the access token typed by hand, and reports the scan. The dashboard shows check-in
statistics.

This project models that logic in Dafny, file by file:

- `text.dfy`: JavaScript's `trim`, ASCII `toLowerCase`/`toUpperCase`, `slice`, `split` and `join`.
- `seqs.dfy`: `filter` and counting.
- `wrappers.dfy`: Option and Result.
- `store.dfy`: the table rows, and the `x || null` and `data.error` conventions.
- `http.dfy`: the edge functions' responses.
- `scanner.dfy`: the scanner page. It is a class holding `scanState`, `isScanning`, `lastScan`, `manualCode` and `showManualEntry`.
- `guest_queries.dfy`: the guest, token and check-in lookups, the append-only check-in ledger and the statistics.
- `csv_import.dfy`: the CSV import parser. `parseCSV` is a method with a loop, proved against a function. The dialog is a class.
- `admin.dfy`: the admin page. It covers the search, the checked-in set, the CSV export and the operator toggle.
- `roster_roundtrip.dfy`: what the import makes of an exported file.
- `guestcard.dfy`: the access code, the download name, the card page's branches, and how the card meets the scanner.
- `operators.dfy`: the join of roles and profiles.
- `user_role.dfy`: the role of a user and the role predicates.
- `create_event.dfy` and `create_operator.dfy`: the two edge functions. Each takes a request and the store's replies, and gives a response and a list of store writes.
- The form dialogs and the settings page, each a class over its form fields:
  - `category_dialog.dfy`
  - `add_operator_dialog.dfy`
  - `reset_password_dialog.dfy`
  - `add_guest_dialog.dfy`
  - `create_event_dialog.dfy`
  - `event_settings.dfy`

The model follows the code as it is written:

- **Scanner.** The scanner page's guest lookup, duplicate check and check-in insert are commented out, so every token of at least eight characters ends in "success".
- **Check-ins.** Creating a check-in is a plain append with no uniqueness. A guest checked in twice counts twice, and "pending" can go negative.
- **CSV.** Export and import are naive. Export quotes cells without escaping. Import splits on every comma and strips one outer quote from each cell. So when no cell holds a comma or a line break, an export followed by an import gives back every guest with a non-empty name, in order, with the import's defaults applied (`RosterRoundTrip.ExportThenImport`). The status and access-token columns are not read back. A comma in a name cuts the name (`RosterRoundTrip.CommaInNameCuts`).

## Model

| member | source | states |
|---|---|---|
| Scanner.ExtractToken | src/app/scanner/page.tsx:103-106 | the token of a payload: the last "/" piece, or the whole payload without "/"; ExtractTokenShape states its shape |
| Scanner.ExtractTokenShape | src/app/scanner/page.tsx:103-106 | the token has no "/", is a suffix of the payload, follows its last "/" when there is one, and is the whole payload otherwise |
| Scanner.SplitLast | src/app/scanner/page.tsx:105 | the last piece of `split("/")` is the suffix after the last separator, or the whole string without one |
| Scanner.ExtractAfterSlash | src/app/scanner/page.tsx:105 | any prefix + "/" + a slash-free t yields exactly t |
| Scanner.ScanOutcome | src/app/scanner/page.tsx:111-174 | a scan ends only in success or error |
| Scanner.ScanOutcomeIff | src/app/scanner/page.tsx:111-174 | success exactly when the token has at least 8 characters; "duplicate" is never reached |
| Scanner.NormalizeManualCode | src/app/scanner/page.tsx:223 | the code is no longer than the input and has no lower-case letter |
| Scanner.ManualOutcome | src/app/scanner/page.tsx:222-234 | a typed code's outcome, or none when it is refused; ManualOutcomeIff states when each happens |
| Scanner.ClampManualInput | src/app/scanner/page.tsx:455 | the input box holds at most 8 characters, none lower-case, and a short input is only upper-cased |
| Scanner.ManualOutcomeIff | src/app/scanner/page.tsx:222-234 | a manual code is scanned exactly when it has 8 characters after trimming, and succeeds exactly when it also holds no "/" |
| Scanner.ScannerPage.constructor | src/app/scanner/page.tsx:35-40 | idle, not scanning, manual entry hidden and empty, no result card |
| Scanner.ScannerPage.StartScanning | src/app/scanner/page.tsx:57-95 | the camera starting gives scanning with isScanning set; a failure gives error with isScanning false |
| Scanner.ScannerPage.ProcessQRCode | src/app/scanner/page.tsx:97-181 | the state becomes the outcome of the payload's token |
| Scanner.ScannerPage.OnDecode | src/app/scanner/page.tsx:73-80 | a decode clears isScanning and then processes the text |
| Scanner.ScannerPage.StopScanning | src/app/scanner/page.tsx:211-220 | isScanning is false afterwards |
| Scanner.ScannerPage.ToggleManualEntry | src/app/scanner/page.tsx:437 | the manual entry's visibility flips |
| Scanner.ScannerPage.EditManualCode | src/app/scanner/page.tsx:455 | the box holds the clamped, upper-cased input |
| Scanner.ScannerPage.ProcessManualCode | src/app/scanner/page.tsx:222-238 | a refused code changes nothing; a scanned one sets the scan outcome, empties and hides the manual entry |
| Scanner.ScannerPage.ResetScanner | src/app/scanner/page.tsx:240-246 | from any state: idle, no result, not scanning, manual entry hidden and empty |
| GuestQueries.NameLeTotal | src/hooks/useGuests.ts:44 | the name order compares any two names |
| GuestQueries.NameLeTrans | src/hooks/useGuests.ts:44 | the name order is transitive |
| GuestQueries.SortedCons | src/hooks/useGuests.ts:44 | a guest no later than the head of a sorted list extends it sorted |
| GuestQueries.InsertByName | src/hooks/useGuests.ts:44 | inserting keeps the list sorted and adds exactly that guest |
| GuestQueries.SortByName | src/hooks/useGuests.ts:44 | `.order("name")` gives a sorted permutation of the rows |
| GuestQueries.GuestsForEvent | src/hooks/useGuests.ts:33-50 | the guest list is [] without an event id, and otherwise sorted by name |
| GuestQueries.GuestsForEventMembers | src/hooks/useGuests.ts:38-44 | a guest is listed exactly when it is in the table and belongs to the event |
| GuestQueries.GuestByToken | src/hooks/useGuests.ts:54-89 | no token gives null; a found guest is a row holding that token; for a token, the `maybeSingle` multiple-rows error comes exactly when more than one row holds it |
| GuestQueries.GuestByTokenNone | src/hooks/useGuests.ts:80-85 | null is returned only when no guest holds the token |
| GuestQueries.GuestByTokenUnique | src/hooks/useGuests.ts:80-85 | a token held by exactly one guest finds that guest |
| GuestQueries.TwoHoldersError | src/hooks/useGuests.ts:80-83 | a token held by two guests gives the multiple-rows error rather than either guest |
| GuestQueries.CheckInsForEvent | src/hooks/useGuests.ts:92-108 | [] without an event id; otherwise every listed row is a ledger row whose guest belongs to the event, and every such ledger row is listed |
| GuestQueries.EventCheckIns | src/hooks/useGuests.ts:99-101 | the inner join of `check_ins` with the event's guests; its meaning is stated by the two lemmas below |
| GuestQueries.CheckInsForEventCounts | src/hooks/useGuests.ts:92-108 | each ledger row of an event guest is listed as often as it occurs in the ledger, and no other row is listed |
| GuestQueries.CheckInsForEventOrder | src/hooks/useGuests.ts:92-108 | listing a concatenated ledger lists each part in turn, so ledger order is kept |
| GuestQueries.CreateCheckIn | src/hooks/useGuests.ts:178-186 | the ledger grows by exactly one row at the end, holding the given guest id and scanner; there is no existence check, so a guest's row count rises by one each time |
| GuestQueries.CheckInStats | src/hooks/useGuests.ts:219-262 | no event id gives zeros; an error exactly when some reply is one, and then the first in await order (total, VIP count, check-ins); otherwise total and vip are the counts returned and checkedIn the number of joined rows, each missing one read as 0, and pending = total - checkedIn |
| GuestQueries.StatsOfTables | src/hooks/useGuests.ts:226-251 | the three replies the store gives for the event: the exact guest count, the exact VIP count and the joined check-in rows; its meaning is stated by StatsOfTablesMeaning |
| GuestQueries.StatsOfTablesMeaning | src/hooks/useGuests.ts:219-262 | for the store's exact answers, total is the number of the event's guests, checkedIn the number of its check-in rows and vip the number of its guests of category "VIP", which never exceeds total |
| GuestQueries.StatsMissingCounts | src/hooks/useGuests.ts:251-257 | a missing total or VIP count reads exactly as 0, and missing check-in data as no rows, whatever the other replies are |
| GuestQueries.RepeatedCheckInCountsTwice | src/hooks/useGuests.ts:244-257 | checking a guest in twice adds two to checkedIn and takes two from pending |
| GuestQueries.PendingCanBeNegative | src/hooks/useGuests.ts:257 | one guest checked in twice gives pending -1 |
| CsvImport.StripQuotes | src/components/CSVImportDialog/index.tsx:56 | the value less one leading `"` and one trailing `"` where present; a value with no quote at either end is unchanged; at most two characters go |
| CsvImport.StripQuotesOfQuoted | src/components/CSVImportDialog/index.tsx:56 | a value wrapped in one pair of quotes is given back |
| CsvImport.Cell | src/components/CSVImportDialog/index.tsx:56 | one data cell, trimmed and then unquoted; what it gives back for an exported cell is stated by RosterRoundTrip.CellOfQuoted |
| CsvImport.Cells | src/components/CSVImportDialog/index.tsx:56 | one cell per comma-separated piece |
| CsvImport.HeaderCells | src/components/CSVImportDialog/index.tsx:44 | one header cell per piece of the lower-cased line |
| CsvImport.FindIndex | src/components/CSVImportDialog/index.tsx:45-48 | the first cell passing the test, or none when no cell does |
| CsvImport.HeaderColumns | src/components/CSVImportDialog/index.tsx:44-52 | the columns of the header, or none without a "name" cell; ParseLines and RosterRoundTrip.HeaderColumnsOfExport state what it finds |
| CsvImport.Lookup | src/components/CSVImportDialog/index.tsx:57 | a cell exists exactly for positions inside the row |
| CsvImport.RowGuest | src/components/CSVImportDialog/index.tsx:56-59 | a row yields a guest exactly when its name cell is non-empty, and that cell is the name |
| CsvImport.OptionalCell | src/components/CSVImportDialog/index.tsx:69-70 | a value exactly when the column exists, lies inside the row and its cell is non-empty, and then that cell |
| CsvImport.RowCategory | src/components/CSVImportDialog/index.tsx:61-65 | "Regular" when the column is missing, lies past the row's end or holds an empty cell; otherwise the trimmed cell |
| CsvImport.RowGuestFields | src/components/CSVImportDialog/index.tsx:61-70 | a kept row's phone and e-mail are absent when their column is missing, past the end or empty, and otherwise the cell; its category is "Regular" in those cases and otherwise the trimmed cell |
| CsvImport.ParseRows | src/components/CSVImportDialog/index.tsx:55-73 | at most one guest per data line |
| CsvImport.ParseLines | src/components/CSVImportDialog/index.tsx:39-52 | fewer than two lines and a header without "name" are refused; otherwise at most one guest per data line |
| CsvImport.ParseCsvSpec | src/components/CSVImportDialog/index.tsx:38-39 | `parseCSV` of the file's text: the trimmed text split on newlines, handed to ParseLines; CsvImport.ParseCsv is proved equal to it |
| CsvImport.ParseRowsAppend | src/components/CSVImportDialog/index.tsx:55-73 | rows of two blocks of lines are the rows of each, in order |
| CsvImport.ParseRowsNames | src/components/CSVImportDialog/index.tsx:57-59 | every parsed guest has a non-empty name from some data line |
| CsvImport.NoNameColumnRefused | src/components/CSVImportDialog/index.tsx:50-52 | a header with no "name" cell is refused |
| CsvImport.EmptyContentRefused | src/components/CSVImportDialog/index.tsx:39-42 | empty content gets the header-row error |
| CsvImport.ParseCsv | src/components/CSVImportDialog/index.tsx:38-76 | the loop yields exactly the parse the functions define |
| CsvImport.PushGuests | src/components/CSVImportDialog/index.tsx:55-73 | the row loop pushes exactly the guests the data lines define, in order |
| CsvImport.ParseRowsNext | src/components/CSVImportDialog/index.tsx:55-73 | one more data line adds exactly that line's guests at the end |
| CsvImport.ImportRows | src/components/CSVImportDialog/index.tsx:105-111 | one row per parsed guest, with the dialog's event id, the name and category kept, missing phone and e-mail as null |
| CsvImport.CsvImportDialog.constructor | src/components/CSVImportDialog/index.tsx:31-33 | no parsed guests, no error, not loading |
| CsvImport.CsvImportDialog.HandleFileChange | src/components/CSVImportDialog/index.tsx:78-98 | no file changes nothing; a parse error or zero guests sets the error and keeps the list; otherwise the list is replaced |
| CsvImport.CsvImportDialog.HandleImport | src/components/CSVImportDialog/index.tsx:100-137 | nothing with no guests; otherwise the import rows are inserted, and the list is emptied and the dialog closed only on success |
| Admin.CheckedInGuestIds | src/app/admin/page.tsx:64 | an id is in the set exactly when some check-in carries it |
| Admin.FilterGuests | src/app/admin/page.tsx:73-75 | exactly the guests whose lower-cased name contains the lower-cased term, in order |
| Admin.EmptySearchKeepsAll | src/app/admin/page.tsx:73-75 | an empty term keeps every guest |
| Admin.SearchKeepsOrder | src/app/admin/page.tsx:73-75 | searching a concatenation searches each part, so order is kept |
| Admin.Status | src/app/admin/page.tsx:98 | "Checked In" exactly when the guest's id is checked in, else "Not Checked In" |
| Admin.TemplateText | src/app/admin/page.tsx:104 | the text `${cell}` gives a nullable cell: the value, or "null"; ExportCells states its use |
| Admin.ExportCells | src/app/admin/page.tsx:93-100 | one cell under each of the six headers: the name; the category; the phone, or "" when missing or empty; the e-mail likewise; "Checked In" exactly when the guest is checked in, else "Not Checked In"; the token, or "null" when missing |
| Admin.Quote | src/app/admin/page.tsx:104 | the cell between two quotes, embedded quotes untouched |
| Admin.QuoteAll | src/app/admin/page.tsx:104 | every cell quoted, in order |
| Admin.ExportLine | src/app/admin/page.tsx:104 | one guest's line, its quoted cells joined by ","; ExportLineSingle and RosterRoundTrip.CellsOfExportLine state what it holds |
| Admin.ExportLines | src/app/admin/page.tsx:102-105 | one line per guest, in order |
| Admin.ExportCsv | src/app/admin/page.tsx:82-105 | no file for no guests; otherwise the header line, then the guest lines, joined by newlines |
| Admin.ExportLineSingle | src/app/admin/page.tsx:104 | a guest line holds no newline when no cell does |
| Admin.HeaderSingle | src/app/admin/page.tsx:92-103 | the header line holds no newline |
| Admin.ExportLayout | src/app/admin/page.tsx:92-105 | splitting the file on newlines gives the header and then exactly one line per guest |
| Admin.LinesSingle | src/app/admin/page.tsx:98-104 | no guest's line holds a line break when no cell does |
| Admin.PartsSingle | src/app/admin/page.tsx:92-104 | neither the header nor any guest line holds a line break |
| Admin.AdminPage.constructor | src/app/admin/page.tsx:138-171 | no operator is being toggled |
| Admin.SwitchDisabled | src/app/admin/page.tsx:498 | the switch is off for one's own account and for the operator being toggled; AdminPage.HandleToggleOperator states that a call is made exactly when it is not disabled |
| Admin.AdminPage.HandleToggleOperator | src/app/admin/page.tsx:138-171 | one's own account is refused before any call with the marker untouched; otherwise the operator is marked during the call and unmarked after it, whatever the reply |
| RosterRoundTrip.ImportedAll | src/components/CSVImportDialog/index.tsx:55-73 | the import of a roster keeps only named guests and no more than there are |
| RosterRoundTrip.ImportedAllNamed | src/components/CSVImportDialog/index.tsx:55-73 | with every name non-empty, every guest comes back position by position |
| RosterRoundTrip.LowerExportHeaders | src/app/admin/page.tsx:92 | the export headers lower-case to name, category, phone, email, status, access token |
| RosterRoundTrip.SplitLowerJoin | src/components/CSVImportDialog/index.tsx:44 | lower-casing and splitting a join gives the lower-cased pieces |
| RosterRoundTrip.HeaderCellsOfJoin | src/components/CSVImportDialog/index.tsx:44 | a joined header reads back as its lower-cased names |
| RosterRoundTrip.HeaderCellsOfExport | src/app/admin/page.tsx:92-103 | the export header reads as the six lower-cased column names |
| RosterRoundTrip.HeaderColumnsOfExport | src/components/CSVImportDialog/index.tsx:45-48 | the import finds name in column 0, category in 1, phone in 2, e-mail in 3 |
| RosterRoundTrip.ColumnsOfHeaderCells | src/components/CSVImportDialog/index.tsx:45-48 | the same for any header line with those cells |
| RosterRoundTrip.NameColumn | src/components/CSVImportDialog/index.tsx:45 | the name column is found at 0 |
| RosterRoundTrip.PhoneColumn | src/components/CSVImportDialog/index.tsx:46 | the phone column is found at 2 |
| RosterRoundTrip.EmailColumn | src/components/CSVImportDialog/index.tsx:47 | the e-mail column is found at 3 |
| RosterRoundTrip.CategoryColumn | src/components/CSVImportDialog/index.tsx:48 | the category column is found at 1 |
| RosterRoundTrip.FindIndexAt | src/components/CSVImportDialog/index.tsx:45-48 | `findIndex` returns the first passing position |
| RosterRoundTrip.CellOfQuoted | src/components/CSVImportDialog/index.tsx:56 | a quoted export cell without surrounding spaces reads back as itself |
| RosterRoundTrip.CellsOfExportLine | src/app/admin/page.tsx:104 | the import's cells of an exported line are the exported cells |
| RosterRoundTrip.RowOfExportLine | src/components/CSVImportDialog/index.tsx:57-72 | an exported line imports as the guest's name, phone, e-mail and category |
| RosterRoundTrip.RowOfCells | src/components/CSVImportDialog/index.tsx:57-72 | the guest read from the exported cells |
| RosterRoundTrip.OptionalOfExport | src/components/CSVImportDialog/index.tsx:69-70 | an exported phone or e-mail reads back, and "" reads as absent |
| RosterRoundTrip.CategoryOfExport | src/components/CSVImportDialog/index.tsx:62-65 | an exported category reads back trimmed, or "Regular" when empty |
| RosterRoundTrip.RowsOfExportLines | src/components/CSVImportDialog/index.tsx:55-73 | the exported lines parse to the imported roster |
| RosterRoundTrip.ExportUntrimmed | src/components/CSVImportDialog/index.tsx:39 | the exported text has nothing for `trim` to remove |
| RosterRoundTrip.LinesUntrimmed | src/app/admin/page.tsx:104-105 | a header starting with "N" and lines ending with a quote join into text `trim` leaves alone |
| RosterRoundTrip.HeaderStart | src/app/admin/page.tsx:92-103 | the export header starts with "N" |
| RosterRoundTrip.LineEnd | src/app/admin/page.tsx:104 | every guest line ends with a closing quote |
| RosterRoundTrip.ParseOfLines | src/components/CSVImportDialog/index.tsx:38-76 | text with a recognised header parses its data lines |
| RosterRoundTrip.ExportedText | src/app/admin/page.tsx:102-105 | the exported text splits into the header and the guest lines |
| RosterRoundTrip.ExportParses | src/components/CSVImportDialog/index.tsx:38-76 | the import reads the export's columns and parses each exported line |
| RosterRoundTrip.DataLines | src/app/admin/page.tsx:102-105 | the data lines of the export are the guests' lines |
| RosterRoundTrip.FirstCellOfCommaName | src/components/CSVImportDialog/index.tsx:56 | a name holding a comma reads as the part before it, less the opening quote |
| RosterRoundTrip.ExportThenImport | src/app/admin/page.tsx:82-105 | exporting and importing gives back every named guest, in order, when no cell holds a comma or line break |
| RosterRoundTrip.CommaInNameCuts | src/components/CSVImportDialog/index.tsx:56 | a comma in a name is not protected by the quotes, and the name comes back cut at the comma |
| GuestCard.AccessCode | src/app/guestcard/page.tsx:22 | a prefix of the token of length min(8, token length), "" with no token |
| GuestCard.View | src/app/guestcard/page.tsx:103-150 | a spinner while loading; not found on an error or no guest; else the card with the page URL as QR value and the access code |
| GuestCard.DashSpaces | src/app/guestcard/page.tsx:83 | `replace(/\s+/g, "-")`: each white-space run becomes one "-"; DashSpacesShape, DashSpacesNoop, DashSpacesJoin and DashSpacesGap state it |
| GuestCard.DashSpacesShape | src/app/guestcard/page.tsx:83 | the result has no white space, is no longer than the name, and is empty only for an empty name |
| GuestCard.DashSpacesNoop | src/app/guestcard/page.tsx:83 | a name without white space is unchanged |
| GuestCard.DashSpacesJoin | src/app/guestcard/page.tsx:83 | two words around a white-space run are joined by one "-" |
| GuestCard.DashSpacesGap | src/app/guestcard/page.tsx:83 | a leading white-space run becomes one "-" |
| GuestCard.TrimStartOfGap | src/app/guestcard/page.tsx:83 | a white-space run before a word is dropped whole |
| GuestCard.Slug | src/app/guestcard/page.tsx:83 | the slug is non-empty with no white space; "guest" for no name or an empty one, else the dashed name lower-cased |
| GuestCard.DownloadName | src/app/guestcard/page.tsx:83 | "access-card-" + slug + ".png" |
| GuestCard.NamelessDownload | src/app/guestcard/page.tsx:83 | no name or an empty one gives "access-card-guest.png" |
| GuestCard.SlugOfWords | src/app/guestcard/page.tsx:83 | a word is only lower-cased; two words get one "-" between them |
| GuestCard.UpperKeepsClasses | src/app/scanner/page.tsx:223 | upper-casing keeps white space and "/" where they are |
| GuestCard.ScanOfCard | src/app/guestcard/page.tsx:148 | scanning the card's URL extracts its token and accepts a token of at least 8 characters |
| GuestCard.ManualEntryOfCard | src/app/guestcard/page.tsx:22 | typing the access code is accepted when the token is long enough and its first 8 characters hold no "/" or white space |
| Operators.FindProfile | src/hooks/useOperators.ts:40 | the first profile with the user's id, or none when none has it |
| Operators.DisplayName | src/hooks/useOperators.ts:46 | the profile's non-empty name, else the role row's non-empty name, else null |
| Operators.JoinOperator | src/hooks/useOperators.ts:39-48 | one role row joined with its first matching profile; OperatorFields states its fields |
| Operators.CombineOperators | src/hooks/useOperators.ts:39-49 | one operator per role row, in the rows' order |
| Operators.LoadOperators | src/hooks/useOperators.ts:16-53 | a roles error passes through and no role rows gives [], both without reading profiles; otherwise profiles are read, a profiles error passes through, and success is CombineOperators of the rows and profiles |
| Operators.OperatorFields | src/hooks/useOperators.ts:42-47 | id, user id, role and creation time come from the role row, and the name from the first matching profile or the row |
| Operators.FirstProfileWins | src/hooks/useOperators.ts:40 | a later profile of the same user never supplies the name |
| UserRoles.UserRoleOf | src/hooks/useUserRole.ts:7-25 | no user id gives null; otherwise no row of that user gives null, more than one gives the `maybeSingle` multiple-rows error, and a role returned is the role of a row of that user |
| UserRoles.IsAdmin | src/hooks/useUserRole.ts:29 | admin exactly when the role is "admin" |
| UserRoles.IsScanner | src/hooks/useUserRole.ts:34 | scanner exactly when the role is "scanner" or "admin", so every admin is a scanner |
| UserRoles.NoRowNoRole | src/hooks/useUserRole.ts:11-21 | a user without a row is neither admin nor scanner |
| UserRoles.SingleRowRole | src/hooks/useUserRole.ts:11-34 | a user with exactly one row gets that row's role, and is admin exactly when it is "admin" and scanner exactly when it is "scanner" or "admin" |
| UserRoles.TwoRowsNoRole | src/hooks/useUserRole.ts:13-19 | a user with two rows gets the multiple-rows error, and is neither admin nor scanner |
| CreateEvent.NameMissing | supabase/functions/create-event/index.ts:49 | the name is missing when absent or blank; HandleCreateEvent states the 400 reply |
| CreateEvent.EventRowOf | supabase/functions/create-event/index.ts:57-70 | the event row has the trimmed, non-empty name and every other field as sent or null |
| CreateEvent.PieceRows | supabase/functions/create-event/index.ts:85-95 | a blank piece gives no row; otherwise one row with the trimmed name, the event id and no colour |
| CreateEvent.CategoryRows | supabase/functions/create-event/index.ts:81-97 | at most one row per piece, each tied to the event and without colour |
| CreateEvent.CategoryRowNames | supabase/functions/create-event/index.ts:85-90 | every row's name is a non-empty trimmed piece |
| CreateEvent.CategoryRowsNoBlank | supabase/functions/create-event/index.ts:81-97 | with no blank piece, one row per piece in order |
| CreateEvent.CategoryWrites | supabase/functions/create-event/index.ts:82-96 | the loop writes exactly the category rows of the split list |
| CreateEvent.JoinedCategories | supabase/functions/create-event/index.ts:81-97 | names joined by "," give one category per name, in order |
| CreateEvent.InsertCategories | supabase/functions/create-event/index.ts:87-94 | one insert per row, in order |
| CreateEvent.HandleCreateEvent | supabase/functions/create-event/index.ts:21-110 | OPTIONS 204, other non-POST 405, a missing name 400, all with no writes; an insert error 500 with no categories; success 201 with the event row then its categories |
| CreateOperator.MissingField | supabase/functions/create-operator/index.ts:37 | a body lacks a field when its e-mail, password, display name or role is missing or empty; HandleCreateOperator states the 400 reply |
| CreateOperator.AuthCall | supabase/functions/create-operator/index.ts:45-50 | the user is created with trimmed e-mail and display name, the password and role as sent |
| CreateOperator.RoleInsertOf | supabase/functions/create-operator/index.ts:60-63 | the role row as written: no user id, the display name under `app_role` |
| CreateOperator.LinkedRoleInsert | supabase/functions/create-operator/index.ts:60-63 | the corrected role row: the new user's id, the trimmed display name and the role |
| CreateOperator.StoredRole | src/types/supabase.ts:237-253 | a stored role row is found by user id only when it has one |
| CreateOperator.HandleCreateOperator | supabase/functions/create-operator/index.ts:19-83 | OPTIONS 204, other non-POST 405, a missing field 400, all with no calls; an auth error 500 with "Auth error: " and no role insert; then the role insert, 500 on its error and 200 otherwise |
| CreateOperator.HandleCreateOperatorLinked | supabase/functions/create-operator/index.ts:19-83 | the same replies, with the role row linking the new user |
| CreateOperator.CreatedOperatorHasNoRole | supabase/functions/create-operator/index.ts:60-63 | as written, the created operator has no role row, so is neither admin nor scanner |
| CreateOperator.LinkedOperatorHasRole | supabase/functions/create-operator/index.ts:60-63 | with the linking row, the operator has the requested role |
| CategoryDialog.ColorClassIn | src/components/CategoryManagementDialog/index.tsx:142-144 | the class of the first option with the value, else "bg-muted" |
| CategoryDialog.GetColorClass | src/components/CategoryManagementDialog/index.tsx:142-144 | the class of a colour value among the listed options; ColorClasses states each |
| CategoryDialog.IsDuplicateError | src/components/CategoryManagementDialog/index.tsx:105 | a failure reads as a duplicate name when its message contains "duplicate" or its code is 23505 |
| CategoryDialog.ColorClasses | src/components/CategoryManagementDialog/index.tsx:35-42 | each listed colour gets its own class, any other value the muted one |
| CategoryDialog.CategoryManagementDialog.constructor | src/components/CategoryManagementDialog/index.tsx:51-54 | empty name, gold, no category being edited or deleted |
| CategoryDialog.CategoryManagementDialog.ResetForm | src/components/CategoryManagementDialog/index.tsx:62-66 | empty name, gold, create mode |
| CategoryDialog.CategoryManagementDialog.HandleSubmit | src/components/CategoryManagementDialog/index.tsx:68-112 | a blank name issues nothing; edit mode updates the edited id and create mode creates, with the trimmed name; success resets the form; a failure keeps it and is a duplicate exactly when the message says "duplicate" or the code is 23505 |
| CategoryDialog.CategoryManagementDialog.HandleEdit | src/components/CategoryManagementDialog/index.tsx:114-118 | the form takes the category's name and colour and edits it |
| CategoryDialog.CategoryManagementDialog.RequestDelete | src/components/CategoryManagementDialog/index.tsx:261 | the category awaits confirmation |
| CategoryDialog.CategoryManagementDialog.HandleDelete | src/components/CategoryManagementDialog/index.tsx:120-140 | nothing without a selection; otherwise a delete, with the selection cleared only on success |
| AddOperatorDialog.Validate | src/components/AddOperatorDialog/index.tsx:43-59 | the dialog's refusal of a form, or none; ValidateMeaning states each case |
| AddOperatorDialog.SentDisplayName | src/components/AddOperatorDialog/index.tsx:69 | the display name sent; SentDisplayNameMeaning states it |
| AddOperatorDialog.InvokeBody | src/components/AddOperatorDialog/index.tsx:65-72 | the `create-operator` body: trimmed e-mail, password, sent display name and role; ValidFormPassesFieldCheck and LeadingAtSendsEmptyName state what the function makes of it |
| AddOperatorDialog.ValidateMeaning | src/components/AddOperatorDialog/index.tsx:43-59 | a blank e-mail or password is refused first; then a password under 6 characters; otherwise accepted |
| AddOperatorDialog.SentDisplayNameMeaning | src/components/AddOperatorDialog/index.tsx:69 | the trimmed display name, or the e-mail's text before its first "@" (all of it without one) |
| AddOperatorDialog.SplitFirst | src/components/AddOperatorDialog/index.tsx:69 | the first piece of a split is the prefix before the first separator |
| AddOperatorDialog.ValidFormPassesFieldCheck | src/components/AddOperatorDialog/index.tsx:65-72 | an accepted form with a name, or an e-mail not starting with "@", passes the function's field check |
| AddOperatorDialog.LeadingAtSendsEmptyName | src/components/AddOperatorDialog/index.tsx:69 | a handler given an e-mail starting with "@" and no display name sends an empty name, which the function refuses (the browser's `type="email"` check, which is not modelled, keeps such an address out of the form) |
| AddOperatorDialog.AddOperatorForm.constructor | src/components/AddOperatorDialog/index.tsx:33-37 | empty fields, the scanner role, not loading |
| AddOperatorDialog.AddOperatorForm.HandleSubmit | src/components/AddOperatorDialog/index.tsx:40-99 | a refused form sends nothing and changes nothing; otherwise the body is sent; success resets the fields and closes; a transport error or `data.error` keeps them; loading is off afterwards |
| ResetPasswordDialog.Spelled | src/components/ResetPasswordDialog/index.tsx:35-37 | one alphabet character per draw, in order |
| ResetPasswordDialog.AlphabetClean | src/components/ResetPasswordDialog/index.tsx:33 | the alphabet holds none of I, O, i, l, o, 0, 1 |
| ResetPasswordDialog.NoLookAlikeAppend | src/components/ResetPasswordDialog/index.tsx:33 | two strings free of look-alikes concatenate to one |
| ResetPasswordDialog.AlphabetUnambiguous | src/components/ResetPasswordDialog/index.tsx:33 | no alphabet character is a look-alike |
| ResetPasswordDialog.SpelledUnambiguous | src/components/ResetPasswordDialog/index.tsx:33-37 | every generated character is in the alphabet and not a look-alike |
| ResetPasswordDialog.EveryPasswordReachable | src/components/ResetPasswordDialog/index.tsx:36 | every string over the alphabet is spelled by some draws |
| ResetPasswordDialog.IndexIn | src/components/ResetPasswordDialog/index.tsx:36 | a position of the character in the alphabet |
| ResetPasswordDialog.GeneratePassword | src/components/ResetPasswordDialog/index.tsx:32-39 | the loop builds the spelled password, 12 characters and so at least 6 |
| ResetPasswordDialog.OperatorName | src/components/ResetPasswordDialog/index.tsx:75 | the display name when non-empty, else "operator" |
| ResetPasswordDialog.ResetPasswordForm.constructor | src/components/ResetPasswordDialog/index.tsx:27-28 | empty password, not loading |
| ResetPasswordDialog.ResetPasswordForm.Generate | src/components/ResetPasswordDialog/index.tsx:38 | the field takes the generated password |
| ResetPasswordDialog.ResetPasswordForm.HandleSubmit | src/components/ResetPasswordDialog/index.tsx:47-90 | nothing without an operator; a password under 6 is refused with no call; otherwise the operator's id and password are sent; success clears and closes, failure keeps both; loading is off afterwards |
| AddGuestDialog.TrimOrNullMeaning | src/components/AddGuestDialog/index.tsx:65-66 | `x.trim() \|\| null` is null exactly for a blank x, else the trimmed x |
| AddGuestDialog.GuestPayload | src/components/AddGuestDialog/index.tsx:52-68 | the guest row the dialog inserts, or none for a blank name; GuestPayloadMeaning states its fields |
| AddGuestDialog.GuestPayloadMeaning | src/components/AddGuestDialog/index.tsx:52-68 | no payload for a blank name; otherwise the event id, trimmed name, trimmed-or-null phone and e-mail, and the category |
| AddGuestDialog.AddGuestForm.constructor | src/components/AddGuestDialog/index.tsx:32-35 | empty fields and the "Regular" category |
| AddGuestDialog.AddGuestForm.HandleSubmit | src/components/AddGuestDialog/index.tsx:49-88 | a blank name inserts nothing; success clears name, phone and e-mail, keeps the category and closes; failure keeps everything |
| CreateEventDialog.DialogBody | src/components/CreateEventDialog/index.tsx:45-68 | the `create-event` body the dialog sends, or none for a blank name; DialogBodyMeaning states its fields |
| CreateEventDialog.DialogBodyMeaning | src/components/CreateEventDialog/index.tsx:45-68 | no body for a blank name; the name trimmed; date and time as typed, null only when empty; every other field null exactly when blank, and otherwise its trimmed value |
| CreateEventDialog.DialogBodyAccepted | supabase/functions/create-event/index.ts:49-61 | a body the dialog sends passes the function's name check and stores the trimmed name |
| CreateEventDialog.TypedCategoriesStored | src/components/CreateEventDialog/index.tsx:67 | names typed as a comma list reach the store as one category each, in order |
| CreateEventDialog.JoinTrimmed | src/components/CreateEventDialog/index.tsx:67 | a comma list with trimmed end pieces is unchanged by trimming |
| CreateEventDialog.CreateEventForm.constructor | src/components/CreateEventDialog/index.tsx:31-40 | all eight fields empty, not loading |
| CreateEventDialog.CreateEventForm.Reset | src/components/CreateEventDialog/index.tsx:79-87 | all eight fields empty |
| CreateEventDialog.CreateEventForm.HandleSubmit | src/components/CreateEventDialog/index.tsx:42-104 | a blank name sends nothing; otherwise the body is sent; success empties the form and closes; a transport error or `data.error` keeps both; loading is off afterwards |
| EventSettings.FormOf | src/app/settings/page.tsx:42-52 | the form filled from an event, null fields as ""; LoadThenSave states what saving it writes |
| EventSettings.UpdateOf | src/app/settings/page.tsx:62-70 | the update a save writes; UpdateMeaning and UpdateIdempotent state it |
| EventSettings.UpdateMeaning | src/app/settings/page.tsx:62-70 | name, honoree, time and venue trimmed; date unchanged; dress code and colours trimmed and null exactly when blank |
| EventSettings.UpdateIdempotent | src/app/settings/page.tsx:62-70 | saving what a save wrote writes the same update |
| EventSettings.LoadThenSave | src/app/settings/page.tsx:42-70 | loading and saving unedited writes back trimmed values, with null honoree, date, time or venue written as "" |
| EventSettings.SettingsPage.constructor | src/app/settings/page.tsx:22-30 | a blank form, not loading |
| EventSettings.SettingsPage.LoadEvent | src/app/settings/page.tsx:42-52 | an event fills the form, nulls as ""; no event leaves it |
| EventSettings.SettingsPage.HandleSubmit | src/app/settings/page.tsx:54-82 | no event issues nothing; otherwise one update of that event's id, loading off afterwards |
| EventSettings.SettingsDialog.constructor | src/components/SettingsDialog/index.tsx:29-37 | a blank form, not loading |
| EventSettings.SettingsDialog.LoadEvent | src/components/SettingsDialog/index.tsx:42-52 | an event fills the form, nulls as ""; no event leaves it |
| EventSettings.SettingsDialog.HandleSubmit | src/components/SettingsDialog/index.tsx:54-91 | no event issues nothing; otherwise one update of that event's id; success closes and failure keeps the dialog open; loading off afterwards |
| Store.OrNull | src/components/AddGuestDialog/index.tsx:65-66 | `x \|\| null`: null exactly for a missing or empty string |
| Seqs.Filter | src/app/admin/page.tsx:73-75 | the kept elements pass the test, every passing element is kept, and nothing is added |
| Seqs.FilterAppend | src/app/admin/page.tsx:73-75 | filtering distributes over concatenation |
| Seqs.FilterAll | src/app/admin/page.tsx:73-75 | a test every element passes keeps the whole list |
| Seqs.FilterNone | src/hooks/useUserRole.ts:11-21 | a test no element passes keeps nothing |
| Seqs.FilterSingle | src/hooks/useGuests.ts:80-85 | a test exactly one element passes keeps just that element |
| Seqs.FilterMultiplicity | src/hooks/useGuests.ts:99-101 | filtering keeps each passing value exactly as many times as it occurs, and no failing value |
| Seqs.FilterFilter | src/hooks/useGuests.ts:235-239 | filtering by one test and then another is filtering by both |
| Seqs.CountSnoc | src/hooks/useGuests.ts:244-251 | appending one element adds one to the count exactly when it passes |
| Text.TrimStartShape | src/components/AddGuestDialog/index.tsx:64 | `trimStart` drops exactly the leading white space |
| Text.TrimEndShape | src/components/AddGuestDialog/index.tsx:64 | `trimEnd` drops exactly the trailing white space |
| Text.TrimLength | src/components/AddGuestDialog/index.tsx:64 | trimming never lengthens |
| Text.TrimEnds | src/components/AddGuestDialog/index.tsx:64 | a trimmed string neither starts nor ends with white space |
| Text.TrimEmptyIffBlank | src/components/AddGuestDialog/index.tsx:52 | `!s.trim()` exactly when every character is white space |
| Text.TrimNoop | src/components/CSVImportDialog/index.tsx:39 | a string without white space at either end is unchanged |
| Text.TrimIdempotent | src/app/settings/page.tsx:63-69 | trimming twice is trimming once |
| Text.ToLower | src/app/admin/page.tsx:74 | lower-casing keeps the length and maps each letter |
| Text.ToLowerAppend | src/app/admin/page.tsx:74 | lower-casing distributes over concatenation |
| Text.LowerAll | src/components/CSVImportDialog/index.tsx:44 | every piece lower-cased, in order |
| Text.ToLowerJoin | src/components/CSVImportDialog/index.tsx:44 | lower-casing a join lower-cases each piece and the separator |
| Text.ToUpper | src/app/scanner/page.tsx:223 | upper-casing keeps the length and maps each letter |
| Text.ToUpperNormal | src/app/scanner/page.tsx:223 | upper-casing leaves no lower-case letter and is idempotent |
| Text.Take | src/app/scanner/page.tsx:455 | `slice(0, n)` is the prefix of length min(n, length) |
| Text.Split | src/components/CSVImportDialog/index.tsx:56 | at least one piece, and no piece holds the separator |
| Text.SplitNoSep | src/components/CSVImportDialog/index.tsx:56 | a string without the separator splits into itself |
| Text.SplitCons | src/components/CSVImportDialog/index.tsx:56 | splitting p + sep + rest gives p and then the pieces of rest |
| Text.SplitJoin | src/components/CSVImportDialog/index.tsx:56 | splitting a join of separator-free pieces gives the pieces back |
| Text.JoinSplit | src/app/admin/page.tsx:104-105 | joining the pieces of a split gives the string back |
| Text.JoinPrepend | src/app/admin/page.tsx:104-105 | prepending a character to the first piece prepends it to the join |
| Text.JoinExcludes | src/app/admin/page.tsx:104-105 | a join of pieces without a character, by a separator without it, holds none |
| Text.JoinEnds | src/app/admin/page.tsx:104-105 | a join starts with its first piece and ends with its last |
| Text.JoinUntrimmed | src/components/CSVImportDialog/index.tsx:39 | a join whose first piece starts and last piece ends with a non-space is unchanged by `trim` |
| Text.ContainsAt | src/app/admin/page.tsx:74 | `includes` holds exactly when the term occurs at some position |
| Text.ContainsEmpty | src/app/admin/page.tsx:74 | every string includes the empty term |

## Left out

- The camera (`html5-qrcode`) and the audio feedback are not modelled. A camera start is a boolean parameter, and a decode event is a method call.
- The PNG export of the card and its scaling, sharing, clipboard, and the WhatsApp text with locale date formatting are left out. The copy-feedback timer is left out too. All are DOM, float or locale work.
- Randomness: `Math.random` in the password generator is modelled as a sequence of draws, each an index below 55.
- Dates are left out: `created_at` timestamps, the date in the export file name, `toISOString` and `toLocaleDateString`.
- The backend is not modelled. Store replies are parameters, and store writes are returned lists. This covers the Supabase clients, react-query caching and query invalidation, `Deno.serve`, CORS headers and JSON parsing. A request body that fails to parse is an error value giving 500.
- `toLowerCase` and `toUpperCase` map only the ASCII letters. Non-ASCII case mapping is not modelled.
- HTML constraint validation is not modelled. The browser refuses to submit a form while a `required` field is empty or a `type="email"` field holds no valid address, and it strips surrounding white space from an e-mail field. Each handler below is modelled as called with any field values, so it also covers inputs the browser would keep back:
- AddOperatorDialog.AddOperatorForm.HandleSubmit: the e-mail and password are `required` and the e-mail is `type="email"` (src/components/AddOperatorDialog/index.tsx:124-140).
- AddOperatorDialog.LeadingAtSendsEmptyName: an e-mail with nothing before its "@" is refused by the browser's `type="email"` check, so the form cannot send it; the lemma states what the handler would do with it.
- AddGuestDialog.AddGuestForm.HandleSubmit: the name is `required` and the e-mail is `type="email"` (src/components/AddGuestDialog/index.tsx:108-125).
- CreateEventDialog.CreateEventForm.HandleSubmit: the name is `required` (src/components/CreateEventDialog/index.tsx:127).
- ResetPasswordDialog.ResetPasswordForm.HandleSubmit: the password is `required` (src/components/ResetPasswordDialog/index.tsx:112).
- EventSettings.SettingsPage.HandleSubmit: name, honoree, date, time and venue are `required` (src/app/settings/page.tsx:125-143).
- EventSettings.SettingsDialog.HandleSubmit: the same five fields are `required` (src/components/SettingsDialog/index.tsx:110-150).
- String lengths are counted in code points, while JavaScript's `.length`, `slice` and `maxLength` count UTF-16 code units. A character outside the Basic Multilingual Plane (an emoji, say) counts once here and twice in the browser. The members below differ from the source for such input:
- AddOperatorDialog.Validate: the 6-character password minimum (src/components/AddOperatorDialog/index.tsx:52) counts code points, so "😀😀😀" is refused here and accepted by the browser.
- ResetPasswordDialog.ResetPasswordForm.HandleSubmit: the same minimum (src/components/ResetPasswordDialog/index.tsx:52) counts code points.
- Scanner.ScanOutcome: the 8-character token minimum (src/app/scanner/page.tsx:111) counts code points.
- Scanner.ManualOutcome: the 8-character code test (src/app/scanner/page.tsx:224) counts code points.
- Scanner.ClampManualInput: `slice(0, 8)` (src/app/scanner/page.tsx:455) keeps 8 code points, and never splits a surrogate pair as the browser can.
- GuestCard.AccessCode: `slice(0, 8)` of the token (src/app/guestcard/page.tsx:22) keeps 8 code points, and never splits a surrogate pair as the browser can.
- `.order("name")` is modelled as code-point order on names. The database collation is not modelled.
- Nullable columns that the code reads as strings are taken as non-null strings: the guest's name, category and event id, the check-in's guest id, the role row's user id, and the category's colour (`categories.color` is nullable, and the `create-event` function inserts null there, so `handleEdit` can copy null into the colour field). The Guest record keeps phone, e-mail and access token optional.
- `useEvent` is not part of this model. The current event is a parameter of each page and dialog.
- The category mutations are stubbed out in the hooks. Their outcome is a parameter of the dialog's methods.
- The guest lookup, duplicate check and check-in insert of the scanner page are commented out, and are not modelled. Nothing resolves a check-in exactly once, and no such resolver is modelled.
- Scanner.ScanResult: the live code never fills the result card, so `lastScan` stays null (the page class keeps this as an invariant).
- The events projection in the token lookup is not modelled. The lookup returns the guest row only, and the card's dress code is left out.
- CreateEvent.HandleCreateEvent: the category inserts' results are not looked at, and neither is the event insert's returned row beyond its id. This is the source's behaviour, not a weakening.
- The `toggle-operator` and `reset-operator-password` edge functions are not part of this model. Their replies are parameters.
- Toast texts are not modelled. Each outcome is a feedback value naming which toast is shown.
- Guest deletion on the admin page is commented out, and is not modelled.
- The add-guest dialog's category reset to the first category is commented out, and is not modelled.

## Findings

| source | as written | input that shows it | evidently intended | confidence | as-written member | corrected member |
|---|---|---|---|---|---|---|
| supabase/functions/create-operator/index.ts:60-63 | after creating the auth user, the handler inserts `{ app_role: displayName, role }` into `user_roles`; the row carries no `user_id`, and `app_role` is not a column of the table | any valid POST, e.g. e-mail "a@b.c", password "secret1", displayName "Ann", role "scanner" | insert `{ user_id: <the new user's id>, role, display_name }`, so that the new operator's role can be found | not executed | CreateOperator.HandleCreateOperator, CreateOperator.CreatedOperatorHasNoRole | CreateOperator.HandleCreateOperatorLinked, CreateOperator.LinkedOperatorHasRole |
