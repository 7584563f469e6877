# Gallon distribution: a Dafny model of the quota and request lifecycle

The system hands out drinking-water gallons to employees. Each employee
has a grade, and the grade sets a monthly quota. At a kiosk, an employee
types their employee code. They can then look up their quota, submit a
request for 1 to 10 gallons, or confirm the pickup of a request the
warehouse has prepared. Staff approve pending requests and mark approved
ones ready. An administrator lists requests with filters and exports
them as a 13-column sheet.

This project models:

- the grade-to-quota table and the grade setter (`QuotaPolicy`, `Employees.SetGrade`)
- the derived figures `current_month_taken` and `remaining_quota`
- the pickup and history queries of an employee (`Employees`)
- the request record and its three transitions `approve`, `markReady` and `complete`, with their status scopes (`Requests`)
- the guarded transitions of the approval, preparation and pickup paths (`Lifecycle`, `Admin`), with the staff controllers both as the routes bind them and with the request bound by id
- the kiosk controller's lookup, submission and pickup (`GallonSystem`)
- the admin list filter (`Admin.ListRequests`)
- the export rows (`Export`)

The tables are sequences: employees, requests and users, plus the
auto-increment counter for request ids (`Store.Db`). `Store.Valid`
states what holds of rows written by the controllers and by the request
factory's named states (`pending`, `approved`, `ready`, `completed`). The
database schema enforces only part of it.

Time is a whole number of seconds since 1970-01-01 UTC. The real clock is
always a parameter `now`. A day is `t / 86400`. The calendar month and
year come from a proleptic Gregorian calendar that counts whole years and
months from the epoch (`Clock.CivilFromDays`).

Where the code differs from what one might expect, the model follows the code:

- An unknown grade does not fail. `setGradeAttribute` falls back to a quota of 7 (`QuotaPolicy.FallbackQuota`).
- A pickup with a request id that exists nowhere is a validation failure on `request_id` (`Errors.Invalid`). It is not reported as the "not found or not ready" error. The validation runs before the guarded query.
- A code that names an existing but inactive employee passes validation. It then fails with `EmployeeNotFound`.

## Model

| member | source | states |
|---|---|---|
| QuotaPolicy.ParseGrade | database/migrations/2024_01_01_000001_create_employees_table.php:18 | A label parses to a grade exactly when it is that grade's label. A label naming no grade parses to nothing. |
| QuotaPolicy.GradeLabelRoundTrip | database/migrations/2024_01_01_000001_create_employees_table.php:18 | Every admitted grade's label parses back to that grade. |
| QuotaPolicy.TableCoversGrades | app/Models/Employee.php:83-91 | The quota table's keys are exactly the seven admitted grade labels, so a stored grade is always found in it. |
| QuotaPolicy.QuotaForLabel | app/Models/Employee.php:156 | A known grade gets its quota from the table (24, 24, 12, 10, 7, 7, 7). Any other label gets 7. The result is always one of 24, 12, 10 or 7. |
| Employees.SetGrade | app/Models/Employee.php:153-157 | Setting the grade stores the label and sets the monthly quota from the table, or to 7 for an unlisted label. No other field changes. |
| Employees.CurrentMonthTaken | app/Models/Employee.php:104-111 | With no completed request of this employee in the current month and year, nothing is taken. |
| Employees.RemainingQuota | app/Models/Employee.php:116-119 | The remaining quota is never negative. It equals quota minus taken whenever that is positive, and is 0 otherwise. |
| Employees.TakenIsSumOfContributions | app/Models/Employee.php:104-111 | Taken this month is the sum, over all stored requests, of the quantity of each of this employee's completed requests whose completion falls in the current calendar month and year. Every other request adds 0. |
| Employees.TakenNonNegative | app/Models/Employee.php:104-111 | With non-negative quantities, the taken figure is non-negative. |
| Employees.RemainingAtMostQuota | app/Models/Employee.php:116-119 | With non-negative quantities and quota, the remaining quota lies between 0 and the monthly quota. |
| Employees.FitsRemainingIffFitsQuota | app/Http/Controllers/GallonSystemController.php:91 | A positive quantity fits the remaining quota exactly when taken plus quantity is at most the monthly quota, so the clamp at 0 never lets a request through. |
| Employees.TakenAfterUpdate | app/Models/Employee.php:104-111 | Replacing one stored request changes the taken figure by the new row's contribution minus the old one's. |
| Employees.TakenAfterAppend | app/Models/Employee.php:104-111 | Appending a request raises the taken figure by exactly that request's contribution. |
| Employees.CompletingAddsQuantity | app/Models/GallonRequest.php:174-180 | Completing one of the employee's not-yet-completed requests raises this month's taken figure by exactly its quantity. |
| Employees.OtherMonthDoesNotCount | app/Models/Employee.php:107-108 | A request completed in another month, or in the same month of another year, leaves the remaining quota unchanged. |
| Employees.OnlyCompletedCounts | app/Models/Employee.php:109 | A request that is not completed adds nothing to the taken figure. |
| Employees.PendingPickupRequests | app/Models/Employee.php:124-130 | The result holds exactly the employee's ready requests, each as often as stored, sorted by ready time with the latest first. |
| Employees.GallonHistory | app/Models/Employee.php:135-140 | The result holds exactly the employee's requests, each as often as stored, sorted by submission time with the latest first. |
| Requests.StatusNameInjective | database/migrations/2024_01_01_000002_create_gallon_requests_table.php:18 | Two statuses share a stored name only when they are the same status. |
| Requests.Approve | app/Models/GallonRequest.php:150-157 | Approving sets the status to approved and records the approver and the instant. The submission fields and the later-stage fields stay as they were. |
| Requests.MarkReady | app/Models/GallonRequest.php:162-169 | Marking ready sets the status to ready and records the preparer and the instant. Every other modelled field stays as it was. |
| Requests.Complete | app/Models/GallonRequest.php:174-180 | Completing sets the status to completed and records the instant. Both actors, the earlier timestamps and the submission fields stay as they were. |
| Requests.WithStatus | app/Models/GallonRequest.php:118-137 | The pending, ready and completed scopes keep exactly the requests with that status, each as often as stored. |
| Requests.RequestedToday | app/Models/GallonRequest.php:142-145 | The today scope keeps exactly the requests submitted on the current day, each as often as stored. |
| Requests.FactoryState | database/factories/GallonRequestFactory.php:36-106 | Each of the factory's four states, with instants picked in order, gives a well-formed request in that status with the submission fields kept. Exactly the steps taken carry an actor. |
| Requests.WellFormedIsFactoryState | database/factories/GallonRequestFactory.php:36-106 | Conversely, every well-formed request whose actors are present is one of the factory's states applied to it. |
| Requests.LastEventBounds | database/factories/GallonRequestFactory.php:51-106 | In a well-formed request, every recorded instant is at most the latest one. |
| Requests.ApproveKeepsShape | database/factories/GallonRequestFactory.php:51-65 | Approving a well-formed pending request with a clock not behind it gives the approved shape: approval set, later stages unset, timestamps in order. |
| Requests.MarkReadyKeepsShape | database/factories/GallonRequestFactory.php:70-85 | Marking a well-formed approved request ready gives the ready shape. |
| Requests.CompleteKeepsShape | database/factories/GallonRequestFactory.php:90-106 | Completing a well-formed ready request gives the completed shape. |
| Requests.LifecycleOrdersTimestamps | database/factories/GallonRequestFactory.php:90-106 | Running approve, markReady and complete in order with a non-decreasing clock gives a completed request. Its four timestamps are non-decreasing, and it names both actors. |
| Lifecycle.TryApprove | app/Http/Controllers/Admin/RequestApprovalController.php:14-24 | Approval succeeds exactly when the request is pending. Success yields the approved record. Failure is the invalid-transition error naming pending. |
| Lifecycle.TryMarkReady | app/Http/Controllers/Admin/RequestPreparationController.php:14-24 | Preparation succeeds exactly when the request is approved. Success yields the ready record. Failure is the invalid-transition error naming approved. |
| Lifecycle.TryPickup | app/Http/Controllers/GallonSystemController.php:136-147 | Pickup of a record succeeds exactly when it belongs to the employee and is ready, and yields the completed record. Otherwise it fails with the not-found error. |
| Lifecycle.AdvanceIsOneStage | app/Models/GallonRequest.php:150-180 | Every successful guarded transition moves exactly one stage forward and keeps the submission fields. |
| Lifecycle.AdvanceKeepsShape | database/factories/GallonRequestFactory.php:36-106 | Every successful guarded transition of a well-formed request, with a clock not behind it, yields a well-formed request whose latest event is now. |
| Lifecycle.ApproveOnlyOnce | app/Http/Controllers/Admin/RequestApprovalController.php:16-20 | A pending request is approved once. A second approval is rejected rather than repeated. |
| Lifecycle.MarkReadyNeedsApproval | app/Http/Controllers/Admin/RequestPreparationController.php:16-20 | Marking ready anything that is not approved is rejected. |
| Lifecycle.PickupFailuresLookAlike | app/Http/Controllers/GallonSystemController.php:136-145 | "Someone else's ready request" and "own request not yet ready" give the same error. |
| Store.FindActiveEmployee | app/Http/Controllers/GallonSystemController.php:50-52 | The lookup returns a stored active employee with that code. It returns nothing exactly when no stored employee is both active and has that code. |
| Store.EmployeeById | database/migrations/2024_01_01_000002_create_gallon_requests_table.php:16 | A request's owner is found exactly when an employee with that row id is stored. |
| Store.IndexOfRequest | app/Http/Controllers/GallonSystemController.php:123 | A request id is found exactly when some stored request carries it, and the position found holds it. |
| Store.UserName | app/Services/GallonRequestExportService.php:50-52 | An actor's name is only ever the name of a stored user with that id. There is no name exactly when the actor is unset or no stored user has that id. |
| Store.ReplaceKeepsValid | database/migrations/2024_01_01_000002_create_gallon_requests_table.php:14-33 | Replacing a stored request by a well-formed one with the same id and owner keeps the tables valid. |
| Store.AppendKeepsValid | database/migrations/2024_01_01_000002_create_gallon_requests_table.php:15 | Inserting a well-formed request under the next auto-increment id, for a stored employee, keeps the tables valid and advances the counter. |
| GallonSystem.ActionOf | app/Http/Controllers/GallonSystemController.php:27-38 | The action is a submission exactly for "request" and a pickup exactly for "pickup". Anything else, including an absent field, is a lookup. |
| GallonSystem.CodeErrors | app/Http/Controllers/GallonSystemController.php:46-48 | The code rule can only fail on `employee_id`. It passes exactly when the code is present, non-empty and some stored employee, active or not, has it. |
| GallonSystem.QuantityErrors | app/Http/Controllers/GallonSystemController.php:75-78 | The quantity rule can only fail on `quantity`. It passes exactly when the quantity is present and from 1 to 10. |
| GallonSystem.RequestIdErrors | app/Http/Controllers/GallonSystemController.php:121-124 | The request-id rule can only fail on `request_id`. It passes exactly when the id is present and some stored request, of any employee or status, has it. |
| GallonSystem.ProcessLookup | app/Http/Controllers/GallonSystemController.php:44-67 | A lookup never changes the tables. It succeeds exactly when the code passes validation and names an active employee, and shows that employee's page: quota, taken this month, remaining, pickups waiting and history, computed from the tables. Otherwise it fails on `employee_id` or as employee-not-found. |
| GallonSystem.ProcessRequest | app/Http/Controllers/GallonSystemController.php:73-114 | A submission succeeds exactly when the code and quantity validate, the employee is active and the quantity fits the remaining quota. Success appends one pending request under the next id and advances the counter, and shows the employee's page computed from the updated tables. Failure leaves the tables unchanged. |
| GallonSystem.ProcessPickup | app/Http/Controllers/GallonSystemController.php:119-158 | A pickup succeeds exactly when the code and request id validate, the code names an active employee, and a stored request with that id belongs to that employee and is ready. The first such request is completed in place, and the page shown is that employee's, recomputed from the updated tables. Failure leaves the tables unchanged. |
| GallonSystem.Handle | app/Http/Controllers/GallonSystemController.php:24-39 | The entry point dispatches to the lookup, submission or pickup its action names. No failure changes the tables. |
| GallonSystem.InactiveEmployeeRejected | app/Http/Controllers/GallonSystemController.php:84-88 | A code that validates but names no active employee fails every action with employee-not-found, once the action's other fields validate, and changes nothing. |
| GallonSystem.QuantityOutOfRangeRejected | app/Http/Controllers/GallonSystemController.php:77 | A missing quantity, or one outside 1 to 10, fails validation on `quantity` and changes nothing. |
| GallonSystem.OverQuotaRejected | app/Http/Controllers/GallonSystemController.php:91-95 | A quantity above the remaining quota is refused with the quota-exceeded error, which carries the remaining quota. The tables are unchanged. |
| GallonSystem.WithinQuotaAccepted | app/Http/Controllers/GallonSystemController.php:98-103 | A quantity within the remaining quota appends exactly one bare pending request under a fresh id, for that employee and quantity, at now. Stored rows are untouched and the tables stay valid. |
| GallonSystem.SubmissionLeavesRemaining | app/Models/Employee.php:104-111 | A submission that validates and fits the remaining quota is accepted, and reserves nothing: the remaining quota is the same before and after. |
| GallonSystem.NoReservationForOpenRequests | app/Http/Controllers/GallonSystemController.php:91 | Two submissions that each fit the remaining quota are both accepted, even when together they exceed it. The remaining quota is unchanged afterwards. |
| GallonSystem.PickupIsGuardedCompletion | app/Http/Controllers/GallonSystemController.php:136-147 | With distinct request ids, the pickup query succeeds exactly when the record-level guard does and applies its result in place. Otherwise it fails with not-found and changes nothing. |
| GallonSystem.PickupCountsAgainstQuota | app/Http/Controllers/GallonSystemController.php:147 | When the pickup query finds the employee's ready request, the pickup goes through. This month's taken figure rises by exactly that request's quantity. |
| GallonSystem.PickupKeepsValid | app/Http/Controllers/GallonSystemController.php:147 | When the pickup query finds the employee's ready request and the clock is not behind the tables, the pickup goes through and keeps the tables valid. |
| Admin.Snake | routes/web.php:35-36 | The snake-case form of a parameter name is at least as long as the name, and a name without upper-case letters is its own snake-case form. |
| Admin.SnakeOfTwoWords | app/Http/Controllers/Admin/RequestApprovalController.php:14 | A camel-case name of two lower-case words, such as `gallonRequest`, snakes into the two words joined by `_`. |
| Admin.ImplicitBinding | routes/web.php:35-36 | When the route segment is the parameter's name or its snake-case form, the parameter gets the stored request with the route's id, or a 404 when there is none. Otherwise it gets a fresh model, whatever the id. |
| Admin.RoutesDoNotBind | routes/web.php:35-36 | The segment `request` is neither `gallonRequest` nor its snake-case form, so the staff routes hand both controllers a fresh model for every id. |
| Admin.ApproveBound | app/Http/Controllers/Admin/RequestApprovalController.php:14-24 | On the model it is handed, approval succeeds exactly when that is a stored pending request, and then updates only that row. A fresh model, whose status is null, and any other status fail with the invalid-transition error naming pending. |
| Admin.PrepareBound | app/Http/Controllers/Admin/RequestPreparationController.php:14-24 | On the model it is handed, preparation succeeds exactly when that is a stored approved request, and then updates only that row. A fresh model and any other status fail with the invalid-transition error naming approved. |
| Admin.ApproveRequestAsWritten | app/Http/Controllers/Admin/RequestApprovalController.php:14-20 | As written, every approval is refused with the invalid-transition error, whatever the id, and the tables stay as they are. |
| Admin.PrepareRequestAsWritten | app/Http/Controllers/Admin/RequestPreparationController.php:14-20 | As written, every preparation is refused with the invalid-transition error, whatever the id, and the tables stay as they are. |
| Admin.AsWrittenRefusesEveryStaffStep | app/Http/Controllers/Admin/RequestApprovalController.php:14-22 | On a stored pending request, approval by id succeeds while approval as written is refused. The same holds for preparing a stored approved request. |
| Admin.ApproveRequest | app/Http/Controllers/Admin/RequestApprovalController.php:14-24 | With the request bound by id, approving fails as a missing record when no request has that id. It succeeds exactly when the stored request is pending, and then updates only that row. Otherwise it fails with the invalid-transition error. |
| Admin.PrepareRequest | app/Http/Controllers/Admin/RequestPreparationController.php:14-24 | With the request bound by id, preparing fails as a missing record when no request has that id. It succeeds exactly when the stored request is approved, and then updates only that row. Otherwise it fails with the invalid-transition error. |
| Admin.SecondApprovalFails | app/Http/Controllers/Admin/RequestApprovalController.php:16-22 | With the request bound by id, the first approval of a pending request succeeds and a second is rejected, so the first approver and time stay recorded. As written, even the first approval is refused. |
| Admin.StaffStepsKeepValid | app/Http/Controllers/Admin/RequestApprovalController.php:22 | Successful approval and preparation keep the tables valid. |
| Admin.ListRequests | app/Http/Controllers/Admin/RequestController.php:18-38 | The list holds exactly the stored requests that pass every filter that is switched on: status, first day, last day and "today". Each appears as often as stored, latest submission first. |
| Admin.NoFiltersListsAll | app/Http/Controllers/Admin/RequestController.php:18-38 | With no filter set, the list is a permutation of all stored requests. |
| Admin.StatusFilterIsExact | app/Http/Controllers/Admin/RequestController.php:21-23 | Filtering on a status name lists exactly the requests with that status, each as often as the model's status scope holds it. |
| Admin.UnknownStatusListsNothing | app/Http/Controllers/Admin/RequestController.php:21-23 | A status filter that names no status lists nothing. |
| Admin.TodayFilterIsRequestedToday | app/Http/Controllers/Admin/RequestController.php:34-36 | The `today` filter lists exactly the requests of the model's `today` scope, each as often. |
| Admin.FiltersCompose | app/Http/Controllers/Admin/RequestController.php:21-36 | The filters are independent. A request is listed under several filters exactly when it is listed under each one alone. |
| Clock.StartOfDay | app/Services/GallonRequestExportService.php:19 | Midnight is the first instant of its day. |
| Clock.DayBounds | app/Services/GallonRequestExportService.php:19 | Every instant lies between its day's midnight and the next day's. |
| Clock.CivilFromDays | app/Models/Employee.php:107-108 | Every day has a calendar date with month 1 to 12, day 1 to 31 and year 1970 or later. |
| Clock.CalendarSteps | app/Models/Employee.php:107-108 | Counting starts on January 1st of the starting year. Each next day is the next date: the next day of the month, the first of the next month after a month's last day, or January 1st of the next year after December 31st. |
| Clock.MonthRollsOver | app/Models/Employee.php:107-108 | The quota month changes overnight exactly when the day is the last of its month. On every other day, the next day is in the same month and year. |
| Clock.FormatTs | app/Services/GallonRequestExportService.php:48 | The formatted instant is `dd-mm-yyyy hh:mm:ss`. The day, month and time of day read back from the text. |
| Export.Ucfirst | app/Services/GallonRequestExportService.php:47 | Only a lower-case ASCII first letter changes, to upper case, and nothing else does. |
| Export.StatusLabels | app/Services/GallonRequestExportService.php:47 | The four statuses export as Pending, Approved, Ready and Completed. |
| Export.TimeCell | app/Services/GallonRequestExportService.php:49-53 | An unset timestamp exports as an empty cell, and a set one as its formatted text. |
| Export.ActorCell | app/Services/GallonRequestExportService.php:50-52 | An unset or unknown actor exports as an empty cell, and a known one as that user's name. |
| Export.ExportRow | app/Services/GallonRequestExportService.php:41-55 | A row has the 13 header columns: request id, employee code, name, grade, quantity, capitalised status, the submission time, then each step's time and actor (empty when unset), then the notes or empty. |
| Export.Selection | app/Services/GallonRequestExportService.php:18-21 | The selected requests are exactly the stored ones the range keeps, each as often as stored, latest submission first. |
| Export.ExportRequests | app/Services/GallonRequestExportService.php:18-21 | The corrected export covers exactly the requests submitted on a day from the first to the last date, both included. Each appears as often as stored, latest first. |
| Export.GetExportData | app/Services/GallonRequestExportService.php:16-59 | The corrected export is the header, then one 13-column row per request in the day range, in the order above. |
| Export.GetExportDataAsWritten | app/Services/GallonRequestExportService.php:16-59 | The export as written: the same header and rows, over the instants from the first date's midnight to the last date's midnight. |
| Export.AsWrittenRangeCharacterised | app/Services/GallonRequestExportService.php:19 | The written range is the day range minus every instant of the last day after its midnight. |
| Export.AsWrittenDropsLastDay | app/Services/GallonRequestExportService.php:19 | For a one-day export, a request submitted at noon on that day appears in the corrected export and is missing from the export as written. |
| Scenarios.WalkSubmit | app/Http/Controllers/GallonSystemController.php:73-114 | A G9 employee with nothing taken submits 5 gallons. The request is stored with id 1. |
| Scenarios.WalkApproveAndPrepare | app/Http/Controllers/Admin/RequestApprovalController.php:14-24 | With the request bound by id, that request is approved and then prepared, each step updating only its row. |
| Scenarios.PickupOfOnlyReadyRequest | app/Http/Controllers/GallonSystemController.php:119-158 | An employee's only stored request, ready, is picked up by id. It is completed in place and the page is recomputed. |
| Scenarios.PickupTakesFive | app/Models/Employee.php:104-119 | Before the pickup nothing is taken. After it, 5 gallons are taken. |
| Scenarios.RefusedWithSevenLeft | app/Http/Controllers/GallonSystemController.php:91-95 | With 5 of 12 taken, a request for 8 is refused, reporting 7 available. |
| Scenarios.QuotaWalkthrough | app/Http/Controllers/GallonSystemController.php:73-158 | With the staff steps binding the request by id, the whole month runs submit 5, approve, prepare and pick up, leaving 7 remaining. A request for 8 is then refused with 7 reported. |
| Seqs.Filter | app/Http/Controllers/Admin/RequestController.php:21-36 | A `where` keeps exactly the elements meeting the condition, each as often as it occurs, and drops every other one. It never grows the sequence. |
| Seqs.SameFilter | app/Models/GallonRequest.php:142-145 | Two conditions that agree on every row select the same rows, each as often. |
| Seqs.FilterKeepsAll | app/Http/Controllers/Admin/RequestController.php:18 | A condition every element meets keeps the whole sequence. |
| Seqs.FirstIndex | app/Http/Controllers/GallonSystemController.php:136-139 | `first()` finds the earliest element meeting the condition, and finds nothing exactly when none does. |
| Seqs.SumOfFilter | app/Models/Employee.php:110 | Summing over the filtered rows equals summing over all rows with the others counted as zero. |
| Seqs.SortDesc | app/Models/Employee.php:138 | `orderBy desc` returns a permutation of its input, sorted by the key with the largest first. |

## Left out

- Rendering, redirects, flash messages and the page itself are not modelled. A reply is the tables plus either the view data or an error.
- Authentication is not modelled, and the code has no staff roles to model. The approval and preparation routes sit only behind the `auth` and `verified` middleware (routes/web.php:23-36), so any signed-in, verified user may approve or prepare. The model accepts any user id as the actor.
- The Eloquent `created_at` and `updated_at` columns of both tables are not modelled. Every insert sets them, and every `update()`, including `approve`, `markReady` and `complete`, also writes `updated_at`. The frame conditions of `Requests.Approve`, `Requests.MarkReady` and `Requests.Complete` cover the modelled fields only.
- Pagination of the admin list (`paginate(15)`) is not modelled. `Admin.ListRequests` is the whole filtered, ordered list.
- `generateCsv` is not modelled. CSV quoting and the file download are I/O on top of the export rows.
- The real clock and time zones are not modelled. `now` is a parameter and all instants are UTC seconds.
- Transactions and concurrent requests are not modelled. Each action is one atomic step on the tables.
- The employee CRUD controller, deleting employees with cascading delete of their requests, and deleting users (which nulls the actor columns) are not modelled as operations. Their effect on the tables is allowed for: `Requests.WellFormed` admits an unset approver or preparer on a request past that step, and `Export.ActorCell` writes an empty cell for an unset or deleted actor.
- The order in which mass assignment fills `grade` and `monthly_quota` is not modelled. `Employees.SetGrade` is the setter alone.
- String comparison by the database collation is not modelled. MySQL compares `employee_id` codes and the `status` filter without regard to letter case or trailing spaces. `Store.FindActiveEmployee`, `Store.CodeExists` and `Admin.MatchesFilters` compare strings exactly, so they accept only the exact stored spelling.
- Admin date filters that are not valid dates are not modelled. `date_from` and `date_to` are taken as days or as absent.
- Export.GetExportData: `date_from` and `date_to` are taken as bare dates. The `date` rule (app/Http/Controllers/Admin/RequestExportController.php:16-19) also accepts a date and time such as `2024-01-20 23:59:59`, and `whereBetween` then compares with that exact instant. Reading a bound as midnight, as the export finding does, holds only for a bare `Y-m-d` string. The admin list's date filters are likewise taken as bare dates.
- Store.Valid: a database filled by the seeder (database/seeders/GallonSystemSeeder.php:84) uses the request factory's default state (database/factories/GallonRequestFactory.php:20-31), which picks a random status and sets no step instants or actors. For example, a `completed` request with no `completed_at`. Such a database may fall outside `Store.Valid`, and then `GallonSystem.WithinQuotaAccepted`, `GallonSystem.PickupKeepsValid` and `Admin.StaffStepsKeepValid` say nothing about it. `Employees.CurrentMonthTaken` and `GallonSystem.ProcessPickup` do not require `Store.Valid`.
- Seqs.SortDesc: ties in `orderBy` are returned in an order SQL leaves unspecified. The model fixes one order and promises only sortedness and the permutation.
- Clock.CivilFromDays: the calendar is defined here by counting Gregorian years and months from 1970-01-01. It stands in for the database's month and year functions on UTC instants, and leap seconds are not modelled.
- Export.GetExportData: requires that every request's owner exists. The foreign key with cascading delete guarantees this.

## Findings

| source | as written | input that shows it | evidently intended | confidence | as-written member | corrected member |
|---|---|---|---|---|---|---|
| app/Http/Controllers/Admin/RequestApprovalController.php:14-16 | The route `requests.approvals` names its segment `{request}`, but `store` takes `GallonRequest $gallonRequest`. Implicit binding pairs segments and parameters by name, so no row is loaded and a fresh model with no attributes is injected. Its null status is never `'pending'`, so every approval is refused. | A stored pending request with id 1, approved through its route. As written the reply is "Only pending requests can be approved." and nothing changes. Bound by id, the request is approved. | The request named in the route is loaded by id, answering 404 when there is none, and approved when pending. | medium, not executed (a reading of the framework's binding rule) | Admin.ApproveRequestAsWritten | Admin.ApproveRequest |
| app/Http/Controllers/Admin/RequestPreparationController.php:14-16 | The route `requests.preparations` has the same mismatch between `{request}` and `$gallonRequest`. The injected fresh model's null status is never `'approved'`, so every preparation is refused. | A stored approved request with id 1, prepared through its route. As written the reply is "Only approved requests can be marked as ready." and nothing changes. Bound by id, the request becomes ready. | The request named in the route is loaded by id, answering 404 when there is none, and marked ready when approved. | medium, not executed (a reading of the framework's binding rule) | Admin.PrepareRequestAsWritten | Admin.PrepareRequest |
| app/Services/GallonRequestExportService.php:19 | `whereBetween('requested_at', [$dateFrom, $dateTo])` compares the submission instant with the two date strings. A bare `Y-m-d` string reads as midnight. The range therefore ends at 00:00:00 on the last day. | A one-day export from day 20000 to day 20000, with one request submitted at noon on day 20000. As written the export has only the header; the corrected one has the request's row. | Every request submitted on any day from the first to the last date, both included, as the admin list's `whereDate` filters do. | medium, not executed | Export.GetExportDataAsWritten | Export.GetExportData |
