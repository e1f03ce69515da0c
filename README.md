# A verified model of the CRM app's derived state, forms and store

This project models the logic at the heart of a small customer-relationship
management web application.

On the client side it models:
- the state the single-page `App` component keeps: companies, meetings, tasks, notifications and the edit modals;
- the handlers that change that state once the server has answered;
- everything the app derives from that state: the dashboard statistics and lists, the contract buckets, the recent-activity feed, the calendar grid and its day lookup, the analytics totals and monthly trend, the client list's search and sort, the overdue-task notifications, and the CSV export text;
- the company form: contact, quotation, contract and study entry, the primary-contact rule, payment-term editing and summaries, and amount formatting;
- the dashboard's Gantt selection and the urgency colours and labels.

On the server side it models the in-memory store behind the REST routes for
companies, meetings and tasks: list, get by id, create, update with a spread
merge, and delete.

Modules:
- **Domain**: the records.
- **Wrappers, Lists, Sorting, Text, Dates**: the JavaScript built-ins these records go through. Sorting is a stable sort with a comparator. Dates covers `Date` parsing of ISO strings and `toISOString`.
- **Dashboard, Calendar, Analytics, ClientList, Notifications, Csv**: the derivations in `client/src/App.tsx`.
- **ClientState**: the `App` component's state, as class `Crm`, and its handlers.
- **CompanyForm, Payments, Amounts, Presentation**: the logic in `client/src/components.tsx`.
- **Store**: `server/src/index.ts` over the `db` of `server/src/data.ts`, as class `Db`.

State that the source changes in place is modelled as classes:
- **`ClientState.Crm`**: each handler's `ensures` gives the whole new state as the old state with named fields replaced.
- **`Store.Db`**: each route's `ensures` ties the new rows to a specification function (`Updated`, `Deleted`). Lemmas then prove the read-back properties of those functions.

The meeting routes (server/src/index.ts:53-85) and the task routes (88-120) follow the company routes, except that their POST handlers (index.ts:65, 100) add only an `id` while the company POST (index.ts:31) also stamps `createdAt`. Each `Db` row cites the company route; the `Collection` parameter covers all three, and `Store.NewRecord` adds `createdAt` for companies only.

The derivations are pure functions. Their contracts and the lemmas beside them state the properties.

Time is an integer count of milliseconds, UTC. A date string parses to `Some(ms)`, or to `None` where JavaScript would give NaN. The clock, random ids, `Date.now()` ids and the server's answers are all parameters.

Two behaviours of the code are easy to miss:
- Upcoming and overdue tasks do not cover every open task. A task whose `endDate` does not parse is in neither list, because both comparisons with NaN are false (client/src/App.tsx:344-352). `Dashboard.OpenTasksPartition` counts these undated tasks as a third part.
- Creating a company does not refresh the list. `handleCreateCompany` (client/src/App.tsx:216-219) only switches the view, so `ClientState.Crm.CreateCompany` leaves `companies` unchanged.

## Model

| member | source | states |
|---|---|---|
| Dashboard.UpcomingTasks | client/src/App.tsx:344-347 | Five tasks, or all upcoming tasks when there are fewer; all open and ending now or later. They form a prefix of the upcoming tasks sorted by end date, so they run earliest first. |
| Dashboard.UpcomingTasksAreEarliest | client/src/App.tsx:344-347 | The sorted list is a permutation of the upcoming tasks. Every task shown ends no later than every upcoming task left out. |
| Dashboard.LateTasks | client/src/App.tsx:349-352 | Five tasks, or all overdue tasks when there are fewer; all open and ending before now. They form a prefix of the overdue tasks by end date, earliest first. |
| Dashboard.LateTasksAreEarliest | client/src/App.tsx:349-352 | The sorted list is a permutation of the overdue tasks. The five shown end no later than any overdue task left out. |
| Dashboard.UpcomingLateDisjoint | client/src/App.tsx:344-352 | No task is both upcoming and overdue. A task is in one of the two exactly when it is open and its end date parses. |
| Dashboard.OpenTasksPartition | client/src/App.tsx:344-352 | The open tasks split exactly into upcoming, overdue, and open with an unparseable end date. |
| Dashboard.UpcomingMeetings | client/src/App.tsx:354-357 | Five meetings, or all meetings dated now or later when there are fewer, earliest first, taken as a prefix of all such meetings sorted by date. |
| Dashboard.UpcomingMeetingsAreEarliest | client/src/App.tsx:354-357 | The sorted list is a permutation of the upcoming meetings. No upcoming meeting left out is dated earlier than one shown. |
| Dashboard.TaskCountsBounded | client/src/App.tsx:361-362 | The In Progress and Completed counts add up to the tasks with either status, so together they never exceed the number of tasks. |
| Dashboard.CompletedAndOpenSplit | client/src/App.tsx:362 | The completed tasks and the open tasks together are all the tasks. |
| Dashboard.Activities | client/src/App.tsx:370-387 | The feed is the tasks, then the meetings, then the companies, one entry each and in their own order, each entry carrying its record. |
| Dashboard.RecentActivities | client/src/App.tsx:370-391 | Ten entries, or all of them when there are fewer: the head of the feed sorted newest first. |
| Dashboard.RecentActivitiesAreLatest | client/src/App.tsx:370-391 | The sorted feed is a permutation of all entries. No entry left out is newer than one shown. |
| Dashboard.ActivityOwner | client/src/App.tsx:371-375 | A task's entry carries its task and the first company whose id is the task's `companyId`. It carries none exactly when no company has that id. |
| Dashboard.MeetingActivityOwner | client/src/App.tsx:376-381 | A meeting's entry carries its meeting and the first company whose id is the meeting's `companyId`, or none when no company has it. |
| Dashboard.AllContractsConcat | client/src/App.tsx:443 | Gathering the contracts of two lists of companies is gathering each list's contracts in turn. |
| Dashboard.OngoingContracts | client/src/App.tsx:443-446 | Exactly the contracts whose two period dates parse with now between them: each listed one belongs to a company and qualifies, and each qualifying one is listed. |
| Dashboard.FinishedContracts | client/src/App.tsx:456-459 | Exactly the contracts whose period end parses and lies before now: each listed one qualifies, and each qualifying one is listed. |
| Dashboard.InvoiceDueContracts | client/src/App.tsx:468-473 | Exactly the contracts whose signing date parses and whose signing plus thirty days falls within the seven days from now. |
| Dashboard.OngoingFinishedDisjoint | client/src/App.tsx:443-459 | No contract is both ongoing and completed. |
| Dashboard.Preview | client/src/App.tsx:446 | A preview is the first five entries of its bucket, or the whole bucket when it is shorter. |
| Dashboard.BucketsFollowCompanyOrder | client/src/App.tsx:443-473 | Each bucket of a concatenation of company lists is the concatenation of the buckets, so the buckets keep company-then-contract order. |
| Calendar.BuildGrid | client/src/App.tsx:1055-1067 | The grid is whole weeks. Blanks come up to the month's first weekday, then day d sits at cell start+d-1 for every day of the month, then blanks. |
| Calendar.PadToWeek | client/src/App.tsx:1064-1066 | The trailing padding is fewer than seven cells and completes the last week. |
| Calendar.DayMeetings | client/src/App.tsx:1072 | Exactly the meetings whose date begins with the cell's ISO date. |
| Calendar.DayTasks | client/src/App.tsx:1073 | Exactly the tasks whose start and end dates, cut to ten characters, enclose the cell's date in string order. |
| Calendar.OneDayTaskShown | client/src/App.tsx:1073 | A task that starts and ends on a day is shown on that day. |
| Calendar.DayContracts | client/src/App.tsx:1075-1084 | Exactly the contracts that start, end or have their invoice due on the day. An unparseable signing date just fails to match. |
| Calendar.AsWrittenAgrees | client/src/App.tsx:1075-1084 | The lookup as written throws exactly when some contract's signing date is non-empty and does not parse. Otherwise it gives the same filter. |
| Calendar.GarbageSigningDateThrows | client/src/App.tsx:1079-1082 | A company with one contract signed "garbage" makes the lookup as written throw. The corrected lookup returns no contract. |
| Calendar.LabelPrecedence | client/src/App.tsx:1226 | A contract listed on a day is labelled "start" exactly when it starts that day, and "end" exactly when it ends but does not start that day. Otherwise it is labelled "tax invoice", and only when the invoice falls on that day. |
| Calendar.ItemsForDate | client/src/App.tsx:1070-1086 | The day lookup fails exactly when some contract's signing date makes the contract filter throw. Otherwise it gives the day's meetings, spanning tasks and contracts. |
| Analytics.TotalIsFlatLength | client/src/App.tsx:1242-1248 | Summing each company's item counts gives the length of all items gathered together. |
| Analytics.CompletionRate | client/src/App.tsx:1249 | The rate is completed/total as a percentage rounded half up, and 0 when there are no tasks. |
| Analytics.CompletionRateBounds | client/src/App.tsx:1249 | The rate lies between 0 and 100. It is 100 when every task is completed and 0 when none is. |
| Analytics.TaskCompletionRate | client/src/App.tsx:1249 | The task completion rate never exceeds 100. |
| Analytics.Dedup | client/src/App.tsx:1261 | `new Set` keeps each month once and exactly the months it was given. |
| Analytics.StringOrderIsTotalPreorder | client/src/App.tsx:1261 | The default string sort is a total preorder. |
| Analytics.Months | client/src/App.tsx:1252-1261 | The months are distinct and strictly ascending. They are exactly the month keys of all contracts, quotations, studies, meetings and tasks. |
| Analytics.TrendData | client/src/App.tsx:1262-1269 | One point per month, in the order of the months. |
| Analytics.CountsOverMonths | client/src/App.tsx:1262-1269 | The per-month counts over distinct months add up to the records whose key is one of those months. |
| Analytics.CountsAddUp | client/src/App.tsx:1262-1269 | When every key is a listed month, the counts add up to all the records. |
| Analytics.TrendContractsAddUp | client/src/App.tsx:1242-1269 | The monthly contract counts add up to the total number of contracts. |
| Analytics.TrendQuotationsAddUp | client/src/App.tsx:1243-1269 | The monthly quotation counts add up to the total number of quotations. Quotations are grouped by the first seven characters of their number. |
| Analytics.TrendStudiesAddUp | client/src/App.tsx:1244-1269 | The monthly study counts add up to the total number of studies. |
| Analytics.TrendMeetingsAddUp | client/src/App.tsx:1267 | The monthly meeting counts add up to the number of meetings. |
| Analytics.TrendTasksAddUp | client/src/App.tsx:1268 | The monthly task counts add up to the number of tasks. |
| ClientList.Search | client/src/App.tsx:639-641 | Exactly the companies whose lower-cased name contains the lower-cased search text. |
| ClientList.EmptySearchKeepsAll | client/src/App.tsx:639-641 | An empty search keeps every company, in order. |
| ClientList.SearchIgnoresCase | client/src/App.tsx:639-641 | Searching for a text and for its lower-cased form give the same list. |
| ClientList.ComparatorIsTotalPreorder | client/src/App.tsx:642-647 | Each of the four orders (name or creation time, ascending or descending) is a total preorder. |
| ClientList.FilteredCompanies | client/src/App.tsx:639-647 | The shown list is a permutation of the search result, sorted by the chosen key and direction. |
| ClientList.FilteredCompaniesMembers | client/src/App.tsx:639-647 | A company is shown exactly when it is in the list and matches the search. |
| ClientList.ByNameAscending | client/src/App.tsx:643-644 | Sorted by name ascending, the names never decrease. |
| ClientList.PrimaryContactName | client/src/App.tsx:699 | "-" for no contacts; otherwise the name of one of the contacts. |
| ClientList.PrimaryContactShown | client/src/App.tsx:699 | The first primary contact with a name is the one shown. |
| ClientList.PrimaryContactFallback | client/src/App.tsx:699 | With no named primary contact, the first contact is shown. |
| ClientState.ReplaceById | client/src/App.tsx:224 | Same length. Every element with the id is replaced, and every other element is kept. |
| ClientState.ReplaceByIdAt | client/src/App.tsx:224 | With unique ids, replacing by an element's id replaces exactly that position. |
| ClientState.ReplaceMissingId | client/src/App.tsx:224 | Replacing by an id no element has leaves the list unchanged. |
| ClientState.ReplaceKeepsUnique | client/src/App.tsx:224 | Replacing with an element of the same id keeps ids unique. |
| ClientState.RemoveByIdAt | client/src/App.tsx:235 | With unique ids, removing by an element's id removes exactly that position. |
| ClientState.FilterKeepsUnique | client/src/App.tsx:235 | Filtering keeps ids unique. |
| ClientState.RemoveKeepsUnique | client/src/App.tsx:235 | Deleting keeps ids unique. |
| ClientState.AppendKeepsUnique | client/src/App.tsx:245 | Appending an element with a fresh id keeps ids unique. |
| ClientState.DeletedTaskLosesWarning | client/src/App.tsx:294-334 | After a task is deleted, the next sync leaves no deadline notification for it. |
| ClientState.CompletedTaskLosesWarning | client/src/App.tsx:283-334 | After a task is updated to Completed, the next sync leaves no deadline notification for it. |
| ClientState.Crm.constructor | client/src/App.tsx:146-165 | Dashboard view, empty collections, no modal open and nothing being edited. |
| ClientState.Crm.LoadData | client/src/App.tsx:196-209 | A successful load replaces the three collections and nothing else. A failed load changes nothing. |
| ClientState.Crm.CreateCompany | client/src/App.tsx:216-219 | A successful create only switches to the client list. The company list is not updated. |
| ClientState.Crm.UpdateCompany | client/src/App.tsx:221-230 | On success, the companies with the id are replaced by the server's record and the modal is closed and cleared. On failure, nothing changes. |
| ClientState.Crm.DeleteCompany | client/src/App.tsx:232-239 | On success, the companies with the id are removed. On failure, nothing changes. |
| ClientState.Crm.CreateMeeting | client/src/App.tsx:242-250 | On success, the server's meeting is appended and the modal closed. On failure, nothing changes. |
| ClientState.Crm.UpdateMeeting | client/src/App.tsx:252-261 | On success, the meetings with the id are replaced and the modal is closed and cleared. On failure, nothing changes. |
| ClientState.Crm.DeleteMeeting | client/src/App.tsx:263-270 | On success, the meetings with the id are removed. On failure, nothing changes. |
| ClientState.Crm.CreateTask | client/src/App.tsx:273-281 | On success, the server's task is appended and the modal closed. On failure, nothing changes. |
| ClientState.Crm.UpdateTask | client/src/App.tsx:283-292 | On success, the tasks with the id are replaced and the modal is closed and cleared. On failure, nothing changes. |
| ClientState.Crm.DeleteTask | client/src/App.tsx:294-301 | On success, the tasks with the id are removed. On failure, nothing changes. |
| ClientState.Crm.SyncNotifications | client/src/App.tsx:304-334 | Only the notifications change, and they change to the synchronized list. When the effect re-runs on that list (its own dependency), it is a fixed point whatever the timestamp. |
| ClientState.Crm.UnreadBadge | client/src/App.tsx:336 | The badge never exceeds the number of notifications. |
| ClientState.Crm.MarkNotificationAsRead | client/src/App.tsx:337-339 | Only the notifications change. The badge drops by exactly the number of unread notifications with that id. |
| Notifications.NewNoteIsDeadlineNote | client/src/App.tsx:315-323 | A new notification is an unread warning whose id is the task id plus "-overdue" and which refers to the task. |
| Notifications.StillOverdueIdsSpec | client/src/App.tsx:306-309 | An id is kept as overdue exactly when some task with that id is open and ends before today. |
| Notifications.ExistingIdsSpec | client/src/App.tsx:311-312 | An id counts as already notified exactly when some deadline notification refers to it. |
| Notifications.NewNotesSpec | client/src/App.tsx:313-324 | Every new notification is for an overdue task that had no deadline notification yet. |
| Notifications.NewNotesAreDeadlineNotes | client/src/App.tsx:315-323 | Every new notification is an unread deadline notification with a related id. |
| Notifications.SyncCoversOverdue | client/src/App.tsx:304-334 | After a sync, every overdue task has a deadline notification. |
| Notifications.SyncOnlyOverdue | client/src/App.tsx:304-334 | After a sync, every deadline notification refers to an overdue task. |
| Notifications.SyncKeepsOthers | client/src/App.tsx:326-331 | Notifications of other kinds pass through unchanged and in order. Kept notifications come first, unchanged, then the new ones. |
| Notifications.SyncIdempotent | client/src/App.tsx:304-334 | Syncing twice against the same tasks and day gives what syncing once gives. Read flags are never reset. |
| Notifications.UnreadCountSplit | client/src/App.tsx:336 | Unread and read notifications together are all of them. |
| Notifications.MarkAsRead | client/src/App.tsx:337-339 | Only the read flag changes, and it is set exactly on the notifications with the id. |
| Notifications.MarkAsReadIdempotent | client/src/App.tsx:337-339 | Marking the same id twice is marking it once. |
| Notifications.MarkAsReadUnreadCount | client/src/App.tsx:336-339 | Marking an id read lowers the unread count by exactly the number of unread notifications with that id. |
| Csv.EscapeQuotes | client/src/App.tsx:1359 | Doubling quotes never shortens a cell and leaves a cell without quotes as it is. |
| Csv.HeaderLine | client/src/App.tsx:1357-1358 | The text starts with the byte-order mark. |
| Csv.CsvText | client/src/App.tsx:1357-1361 | The exported text starts with the byte-order mark. |
| Csv.ReadCellsOfLine | client/src/App.tsx:1359 | A written row reads back as its cells. |
| Csv.ReadRowsOfLines | client/src/App.tsx:1359-1360 | Rows joined by CRLF read back as those rows. |
| Csv.SplitJoined | client/src/App.tsx:1358 | Headers without commas, joined by commas, split back into the headers. |
| Csv.ReadWrittenCsv | client/src/App.tsx:1357-1361 | The exported text reads back as exactly its headers and rows, whatever the cells contain, provided the headers have no comma or CR. |
| CompanyForm.NoPrimaryIff | client/src/components.tsx:240-245 | No primary counted exactly when no contact is primary. |
| CompanyForm.ExactlyOnePrimary | client/src/components.tsx:240-245 | Exactly one primary counted exactly when some contact is the only primary one. |
| CompanyForm.HandlePrimaryChange | client/src/components.tsx:190-192 | Contacts are kept apart from their flag, and exactly the chosen one is primary. |
| CompanyForm.PrimaryChangeSelects | client/src/components.tsx:190-192 | Choosing a contact in the list leaves exactly one primary. Choosing an index outside the list leaves none. |
| CompanyForm.HasTextIff | client/src/components.tsx:196 | A name has text exactly when trimming leaves something. |
| CompanyForm.AddContact | client/src/components.tsx:195-202 | A blank name changes nothing. Otherwise the draft is appended with the timestamp id and the draft is reset. |
| CompanyForm.AddQuotation | client/src/components.tsx:207-215 | A blank name changes nothing. Otherwise the draft is appended with the timestamp id and the draft is reset. |
| CompanyForm.AddContract | client/src/components.tsx:218-226 | A blank name changes nothing. Otherwise the draft is appended with the timestamp id and the draft is reset. |
| CompanyForm.AddStudy | client/src/components.tsx:229-237 | A blank name changes nothing. Otherwise the draft is appended with the timestamp id and the draft is reset. |
| CompanyForm.AddThenRemoveContact | client/src/components.tsx:195-204 | Removing a just-added contact by its new id restores the list. |
| CompanyForm.IsValidIff | client/src/components.tsx:240-245 | The form is valid exactly when name and address have text and exactly one contact is primary. |
| CompanyForm.PrimaryChangeValidates | client/src/components.tsx:190-245 | With a name and an address, choosing any listed contact as primary makes the form valid. |
| CompanyForm.TabsWalkInOrder | client/src/components.tsx:693-710 | Next and previous move one step through the four tabs and undo each other. They stop at the ends and never reach the summary tab. |
| CompanyForm.InfoReachesStudies | client/src/components.tsx:693-710 | Three presses of next from the first tab reach the studies tab, and it stays there. |
| Amounts.DigitsOnly | client/src/components.tsx:438-474 | The result is only digits and no longer than the input. A digits-only input is kept. |
| Amounts.GroupKeepsDigits | client/src/components.tsx:436-438 | Grouping only inserts commas: filtering the digits again gives the input's digits. |
| Amounts.CommaPositions | client/src/components.tsx:436 | In a digits-only amount, a comma goes before each non-first position that leaves a multiple of three digits. |
| Amounts.GroupFromTheRight | client/src/components.tsx:436 | Grouping agrees with "groups of three from the right": three digits or fewer are unchanged. Otherwise the grouped rest comes, then a comma, then the last three. |
| Amounts.NumberOf | client/src/components.tsx:532-535 | A string of digits is read as its decimal value. |
| Amounts.BlankIsZero | client/src/components.tsx:532-535 | A blank string reads as 0. |
| Amounts.PaddedDigits | client/src/components.tsx:532-535 | Digits with white space around them read as the digits' value. |
| Amounts.LocaleStringDigits | client/src/components.tsx:412-416 | A printed number holds exactly its decimal digits. |
| Amounts.PrintedAmountReadsBack | client/src/components.tsx:412-438 | Filtering and re-reading a printed amount gives back the number. |
| Payments.AsStructured | client/src/components.tsx:470-511 | Editing always produces the structured form. |
| Payments.EditInterim | client/src/components.tsx:487-493 | The edited interim becomes the digits typed; the other interims, the advance and the balance are kept. |
| Payments.RemoveInterim | client/src/components.tsx:496-502 | Interim `idx` is cut out, the rest kept in order; an index out of range changes nothing. Advance and balance are kept. |
| Payments.EditsKeepClean | client/src/components.tsx:470-523 | Every edit keeps every amount digits-only. |
| Payments.CleanSumDefined | client/src/components.tsx:530-536 | Terms with only digit amounts always have a sum. |
| Payments.AddInterimKeepsSum | client/src/components.tsx:505-536 | Adding an empty interim does not change the sum. From plain terms the sum is 0. |
| Payments.RemoveInterimSubtracts | client/src/components.tsx:496-536 | Removing an interim lowers the sum by exactly its amount. |
| Payments.EditInterimReplaces | client/src/components.tsx:487-536 | Editing an interim replaces its amount in the sum by the digits typed. |
| Payments.QuotationTermsSummary | client/src/components.tsx:408-417 | No terms or empty plain terms read "-". Plain text is shown as it is. Structured terms give the summary as written, which is the corrected summary when every interim is filled. |
| Payments.FilledSummaryAgrees | client/src/components.tsx:410-416 | With every interim filled in, the summary as written equals the corrected one. |
| Payments.ContractTermsSummary | client/src/components.tsx:617-628 | No terms, empty plain terms, or structured terms without interims read "-". Otherwise the summary is the quotation's, as written. |
| Payments.KeptShape | client/src/components.tsx:410-416 | A joined summary is empty exactly when every piece is, and otherwise ends in "won". |
| Payments.InterimsPartShape | client/src/components.tsx:410-416 | The interim block is empty exactly when every interim is, and otherwise ends in "won". |
| Payments.StructuredSummaryShape | client/src/components.tsx:408-417 | The corrected summary is empty exactly when every amount is empty, and otherwise ends in "won", with no stray separator. |
| Payments.AdvanceComesFirst | client/src/components.tsx:410-416 | When there is an advance payment, the summary starts with it. |
| Payments.EmptyInterimLeavesSeparator | client/src/components.tsx:413-414 | Interims "100" and "" summarise as written with a trailing ", ". The corrected summary has none. |
| Payments.InvoiceDateLabel | client/src/components.tsx:639-645 | No signing date reads "pending". Otherwise there is a label exactly when the date parses. |
| Payments.InvoiceLabelMatchesDashboard | client/src/components.tsx:639-645 | The form's invoice date is the dashboard's invoice date. |
| Payments.InvoiceAfterNewYear | client/src/components.tsx:639-645 | Signed 2024-01-01, the invoice is due 2024-01-31. |
| Payments.InvoiceAcrossLeapDay | client/src/components.tsx:639-645 | Signed 2024-02-15, the invoice is due 2024-03-16, across the leap day. |
| Presentation.GanttSelectionSpec | client/src/components.tsx:1062-1067 | The chart shows fifteen tasks, or all when there are fewer, earliest end first. They are drawn from the tasks, and no task left out ends later than one shown. |
| Presentation.GanttMissesLatest | client/src/App.tsx:431-432 | A sixteenth task that ends last is missing from the chart as written but shown by the corrected chart. |
| Presentation.DaysRemaining | client/src/components.tsx:1206 | The days left are the time to the date divided by a day, rounded up. NaN is a date that does not parse. |
| Presentation.ColorFor | client/src/components.tsx:1207-1209 | Red exactly for a meeting or open task with no days left. Yellow exactly for other items with at most three days left. |
| Presentation.ColorMonotone | client/src/components.tsx:1207-1209 | Fewer days left never gives a less urgent colour. |
| Presentation.CompletedNeverRed | client/src/components.tsx:1207-1209 | A completed task is never red. Past its date it is yellow. |
| Presentation.PastIsRed | client/src/components.tsx:1206-1209 | A meeting or open task dated at or before now is red. |
| Presentation.TomorrowIsYellow | client/src/components.tsx:1206-1209 | A date a day and a half ahead leaves two days and reads yellow. |
| Presentation.LabelFor | client/src/components.tsx:1233-1237 | A label is shown exactly when the days left lie in (-30, 7]. |
| Presentation.LabelAgreesWithColor | client/src/components.tsx:1207-1237 | A shown label starts with "Overdue" exactly when the colour is red. |
| Presentation.LabelNumber | client/src/components.tsx:1233-1237 | The number in the label reads back as the days overdue, or as the days left. |
| Store.Spread | server/src/index.ts:39 | `{...a, ...b}`: the keys of both. The body's values win and the rest keep the stored values. |
| Store.Lookup | server/src/index.ts:24 | Nothing exactly when no row has the id. Otherwise the first row with it. |
| Store.NewRecord | server/src/index.ts:30-34 | The new record has the given id and all the body's other fields. Companies also get `createdAt` set to now. |
| Store.Db.constructor | server/src/data.ts:105-110 | All three collections start empty. |
| Store.Db.GetAll | server/src/index.ts:18-20 | Returns the collection's rows. |
| Store.Db.GetById | server/src/index.ts:23-27 | 404 exactly when no row has the id. Otherwise 200 with the first row that does. |
| Store.Db.Create | server/src/index.ts:30-34 | 201 with the new record, which is appended to its collection alone. |
| Store.Db.Update | server/src/index.ts:37-42 | 404 with nothing changed, or 200 with the new row. The collection becomes the specified update and the others are unchanged. |
| Store.Db.Delete | server/src/index.ts:45-50 | 404 with nothing changed, or 204. The collection becomes the specified deletion and the others are unchanged. |
| Store.UpdatedSpec | server/src/index.ts:37-42 | An update fails exactly when no row has the id. Otherwise only the first such row changes, to the spread of it with the body. |
| Store.DeletedSpec | server/src/index.ts:45-50 | A delete fails exactly when no row has the id. Otherwise only the first such row is removed and the rest keep their order. |
| Store.CreateThenGet | server/src/index.ts:23-34 | A record created under a fresh id is found by it, and ids stay unique. |
| Store.DeleteThenGet | server/src/index.ts:23-50 | With unique ids, a deleted id is no longer found, and ids stay unique. |
| Store.UpdateThenGet | server/src/index.ts:23-42 | With unique ids and no id in the body, getting the id returns the old record spread with the body. |
| Store.UpdateTakesBodyId | server/src/index.ts:39 | An id in the body overwrites the stored id. |
| Lists.Filter | client/src/App.tsx:345 | `Array.filter`: exactly the elements that pass, drawn from the input. |
| Lists.FilterPositions | client/src/App.tsx:345 | The kept elements sit in the input at strictly increasing positions, and every position holding a passing element is among them. |
| Lists.RemoveById | client/src/components.tsx:204 | It is the filter on a different id: exactly the elements whose id differs remain. Those dropped are the ones with the id. |
| Lists.RemoveByIdInOrder | client/src/components.tsx:204 | The entries that remain keep their relative order. |
| Lists.RemoveMissingId | client/src/components.tsx:204 | Removing an id no element has changes nothing. |
| Lists.RemoveUndoesAdd | client/src/components.tsx:195-204 | Removing a just-appended element by its fresh id restores the list. |
| Sorting.Sort | client/src/App.tsx:346 | `Array.sort` yields a permutation of its input. |
| Sorting.SortSorted | client/src/App.tsx:346 | With a total-preorder comparator, the result is sorted. |
| Dates.ParseCalendarDate | client/src/App.tsx:1080 | A well-formed "YYYY-MM-DD" parses to midnight UTC of that day. |
| Dates.BeforeOrNotBefore | client/src/App.tsx:345-350 | For a parsed date, "before" and "not before" are opposites. For NaN, both are false. |
| Dates.DayOfWeek | client/src/App.tsx:1058 | The weekday is between 0 and 6. |
| Dates.DaysInMonth | client/src/App.tsx:1059 | A month has 28 to 31 days. |
| Dates.EpochIsThursday | client/src/App.tsx:1058 | Day number 0 is 1970-01-01, and its weekday is 4, Thursday. |
| Dates.NextDay | client/src/App.tsx:1058 | The next day has the next day number and the next weekday, modulo seven. |
| Dates.YearFromMarch | client/src/App.tsx:1059 | A year counted from March 1 has 366 days when the following January falls in a leap year, 365 otherwise. |
| Dates.MonthLength | client/src/App.tsx:1059 | `DaysInMonth` days after the first of a month comes the first of the next month, across the year end too. |
| Dates.LastDayOfMonth | client/src/App.tsx:1059 | Day `DaysInMonth` of a month directly precedes the first of the next, as day 0 of the next month is. |
| Dates.NextMonthWeekday | client/src/App.tsx:1058-1059 | The next month starts `DaysInMonth` weekdays after this month's first day. |
| Text.TrimEmptyIffBlank | client/src/components.tsx:196 | Trimming leaves nothing exactly when the string is all white space. |
| Text.NatToStringRoundTrip | client/src/components.tsx:414 | Printing a number and reading the digits back gives the number. |
| Text.ToLower | client/src/App.tsx:640 | Same length, and each character is lower-cased. |

## Left out

- Money is integers: `Number(...)` on an amount is read as whole decimal digits, blank as 0 and anything else as NaN. Decimals, signs, exponents and hexadecimal are not modelled.
- The dashboard's total revenue (client/src/App.tsx:363-367) is not modelled, because it sums `parseFloat` results in floating point.
- Amounts.LocaleString: models `toLocaleString()` as comma grouping of whole numbers only; other locales and fractions are not modelled.
- ClientList.NameOrder: `localeCompare` is modelled as code-point order on strings, because locale collation tables are outside Dafny.
- Text.ToLower: lower-cases ASCII letters only, since Unicode case mapping is not available.
- Time zones: every date is UTC, as `new Date("YYYY-MM-DD")` and `toISOString()` are. A local-time `new Date()` and `setHours` are modelled through `now` and `today` parameters.
- Dashboard.EndKey: a task whose `endDate` does not parse sorts as time 0. JavaScript's comparator returns NaN for such a task, which leaves the engine's order unspecified.
- Dashboard.ActivityKey: an activity whose date does not parse sorts as time 0, for the same reason.
- ClientList.CreatedKey: a company whose `createdAt` does not parse sorts as time 0, for the same reason.
- Analytics.CompletionRate: computes completed/total as an exact percentage rounded half up. `Math.round((c / t) * 100)` works in double precision, where a ratio with no exact binary form can land just under a half: for 23 of 40, 0.575 times 100 is slightly below 57.5, so JavaScript gives 57 where the model gives 58.
- Text.StrLe: compares strings by code point. `Array.sort` without a comparator and `<` compare UTF-16 code units, which order differently only for characters outside the Basic Multilingual Plane.
- Dates.ParseInstant: rejects a day beyond the month's length, such as "2024-02-30". The ECMAScript date-time format does so too, but some engines' fallback parsers roll such a date over into the next month.
- Ids from `Date.now()` and `uuid`, and the timestamp of a notification, are parameters. Their uniqueness is a precondition where a lemma needs it.
- Payments.AsStructured: string payment terms (`Plain`) become an empty structured form when first edited, as the spread of a string does for these three fields.
- CSV export of the per-entity row builders and the Blob download are not modelled. Csv models the text built from headers and rows.
- JSON values in the store hold integers, strings, booleans, null, arrays and objects. Floating-point JSON numbers are not modelled.
- The users collection, registration, login, bcrypt hashing and JWTs are not modelled.
- Express routing, body parsing and CORS are not modelled. The store is modelled as the operations the route handlers perform.
- `fetch` and `async`: every server answer is a parameter of the client handler. Ordering between concurrent requests is not modelled.
- ClientState.Crm.DeleteCompany, DeleteMeeting, DeleteTask: whether the request succeeded is a `bool`. `fetch` resolves on a 404, so the handler as written removes the element whenever the request did not throw; the parameter stands for that outcome.
- The quotation and contract routes that the client calls do not exist in the server source. Quotations, contracts and studies travel inside a company record.
- The handlers for editing modals beyond the three show flags and the editing fields, and stub handlers that only log, are not modelled, because they change no modelled state.
- JSX rendering, styling, the Gantt chart's axis and colours, and the chart library are not modelled.
- The company form's summary tab cannot be reached by next or previous; only the four reachable tabs are walked.
- The recent contracts, quotations and studies lists of the analytics page (client/src/App.tsx:1272-1274) are not modelled; they are a `localeCompare` sort followed by a cut.
- Deleting a company does not delete its meetings and tasks. The model keeps this, since the source does.

## Findings

| source | as written | input that shows it | evidently intended | confidence | as-written member | corrected member |
|---|---|---|---|---|---|---|
| client/src/App.tsx:1079-1082 | The calendar parses any non-empty signing date and calls `toISOString()` on the result, which throws RangeError on an invalid date and breaks the day view. | One contract with `contractSigningDate` "garbage", looked up on 2024-01-15 | A signing date that does not parse simply matches no day | high, not executed | Calendar.GarbageSigningDateThrows | Calendar.DayContracts |
| client/src/components.tsx:413-414 | The interim list maps an empty interim to "" and joins with ", ", so the summary keeps a dangling separator. | interims ["100", ""], no advance or balance | Empty interims are dropped before joining, so no trailing ", " | high, not executed | Payments.EmptyInterimLeavesSeparator | Payments.StructuredSummaryShape |
| client/src/App.tsx:432 | The dashboard hands the Gantt chart `tasks.slice(0, 15)`, so the chart's latest-ending selection only sees the first fifteen tasks. | sixteen tasks where the sixteenth ends last | The chart selects the fifteen latest-ending of all tasks | medium, not executed | Presentation.GanttMissesLatest | Presentation.GanttSelectionSpec |
