# HRIS biometric attendance, access control and 201-file alerts in Dafny

This project models the logic of an HR information system: a Next.js application backed by Supabase (Postgres, storage and auth). It covers four parts.

- **Biometric attendance routes.**
  - A registered device posts a scan. The route checks that the device is active and that the employee is enrolled on it.
  - It then finds or opens the employee's attendance row for the day, logs the scan, and stamps one of `time_in`, `lunch_out`, `lunch_in` or `time_out`.
  - HR admins register devices, enrol employees on them and list the employees with their enrollments.
  - The database is a class `BiometricStore.Store` whose fields are the tables. Every handler is a method over it. Each method is proved equal to a step function over a value snapshot (`Checkin.Ingest`, `Enroll.Upsert`, `DeviceRegister.Register`, `EmployeeListing.Answer`), and the route's promises are proved as lemmas about those functions.
- **File upload.** The `/api/upload` route stores an employee's file in the 201-files bucket without overwriting. A storage bucket is a class holding a map from object paths to files.
- **Session middleware.** The middleware decides, from the session, the role and the pathname, whether a request passes, carries refreshed cookies, or is redirected. The cookie `setAll` callback is modelled as a method over two cookie jars.
- **Scheduled jobs and HR screens.**
  - Two cron routes alert HR about incomplete 201 files and about contracts expiring within 30 days. Each sits behind a bearer-token gate (section 2.1 of RFC 6750) and sends one alert per selected employee. The handlers model the gate as written, a text comparison with a template that admits "Bearer undefined" while the secret is unset; a corrected route sits beside each (see Findings).
  - The client components carry the list logic: the 201-file dashboard's search, department list and counts; the biometric enrollment dialog; and the settings, documents and devices pages with their deletes. The document upload dialog's submit is modelled too.

Database, storage and auth calls are foreign: their outcomes are parameters of type `Outcome`. Time is a parameter, in milliseconds since the epoch (`now`), or the ISO timestamp it renders to (`stamp`). `IsoTime` gives `toISOString` and `split("T")[0]` a full definition through the proleptic Gregorian calendar.

## Model

| member | source | states |
|---|---|---|
| BiometricStore.RoleOf | app/api/biometric/enroll/route.ts:17-19 | The role is present exactly when exactly one profile row has the user's id, and it is then the role of every row with that id, as `.single()` demands |
| BiometricStore.FreshSerial | app/api/biometric/device/register/route.ts:24-32 | In well-formed tables the next generated id names no device and no attendance row |
| BiometricStore.SerialIdInjective | app/api/biometric/device/register/route.ts:24-32 | Different insert counters give different generated ids |
| Checkin.Ingest | app/api/biometric/checkin/route.ts:10-90 | The route answers only 201, 403, 404 or 500, and never writes devices, enrollments or profiles |
| Checkin.OpenDay | app/api/biometric/checkin/route.ts:38-57 | The day's row is found or inserted: an id comes back exactly when the row exists afterwards, and it is that row's id; a failed insert gives no id |
| Checkin.RecordedExactlyWhenAccepted | app/api/biometric/checkin/route.ts:60-86 | 201 exactly when the device is active, the employee enrolled and the insert succeeds; then the log grows by the one returned punch with the request's device, employee, kind, confidence and the request time; otherwise the log and devices are unchanged |
| Checkin.GatesWriteNothing | app/api/biometric/checkin/route.ts:10-32 | An unknown or inactive device answers 404 "Device not found or inactive" whatever the enrollment; an active device without an enrollment answers 403 "Employee not enrolled on this device"; the answer is 403 or 404 exactly in those two cases, and then every table is as it was |
| Checkin.OnlyTheDayRowChanges | app/api/biometric/checkin/route.ts:38-84 | Devices, enrollments and profiles are never written; the only attendance key that can appear is the scan's (employee, day), and every other row is unchanged |
| Checkin.DayRowReused | app/api/biometric/checkin/route.ts:38-43 | With a row for the day already there, no row is added and the punch points at the existing row |
| Checkin.DayRowOpened | app/api/biometric/checkin/route.ts:45-57 | The first scan of the day adds exactly the (employee, day) row with status "present" and source "biometric", and the punch points at it; a failed insert adds nothing and the punch has no attendance id |
| Checkin.ScanStampsItsField | app/api/biometric/checkin/route.ts:76-84 | A recorded scan of one of the four kinds sets that field to the request time and leaves the other three fields, the id, status and source unchanged |
| Checkin.UnknownKindStampsNothing | app/api/biometric/checkin/route.ts:82-84 | Any other record type leaves the attendance table as the day-row step left it |
| Checkin.ResponseIgnoresFieldUpdate | app/api/biometric/checkin/route.ts:83-86 | The response is the same whether or not the field update succeeds |
| Checkin.PunchFailureStampsNothing | app/api/biometric/checkin/route.ts:60-90 | A failed punch insert answers 500 with the database message; a row opened just before stays, and nothing is stamped |
| Checkin.IngestKeepsWellFormed | app/api/biometric/checkin/route.ts:38-84 | The check-in step keeps the tables well formed: keys agree with rows, attendance ids are unique, unused ids stay unused |
| Checkin.TimeInThenTimeOut | app/api/biometric/checkin/route.ts:34-84 | Time in then time out on one day: both 201, a single new row holding both times and no lunch times, two punches logged |
| Checkin.RepeatedKindOverwrites | app/api/biometric/checkin/route.ts:38-83 | Two accepted scans of the same kind on one day, whether or not the day's row existed before: the row exists afterwards and holds the later time |
| Checkin.OpenDayIn | app/api/biometric/checkin/route.ts:38-57 | The in-place find-or-insert leaves the database and returns the id exactly as `OpenDay` does |
| Checkin.BuildUpdate | app/api/biometric/checkin/route.ts:76-80 | The update object is empty exactly when the record type is none of the four kinds |
| Checkin.Record | app/api/biometric/checkin/route.ts:10-90 | The handler after the clock is read: new database and response are those of `Ingest` |
| Checkin.Post | app/api/biometric/checkin/route.ts:4-90 | The handler: the database stays well formed and changes as `Ingest` at the ISO timestamp of `now` says |
| IsoTime.IsoDate | app/api/biometric/checkin/route.ts:35 | The date is written with digits, the sign and dashes only, and for years 0-9999 it is ten characters in the `YYYY-MM-DD` positions |
| IsoTime.CivilFromDaysRange | app/api/biometric/checkin/route.ts:35 | The calendar conversion gives a month of 1-12 and a day of 1-31 for every day number |
| IsoTime.IsoClock | app/api/biometric/checkin/route.ts:34 | The time part is 13 characters `HH:mm:ss.sssZ`, with the separators in place |
| IsoTime.IsoTimestamp | app/api/biometric/checkin/route.ts:34 | For years 0-9999 the ISO string is 24 characters, with `T` at position 10 and `Z` last |
| IsoTime.Today | app/api/biometric/checkin/route.ts:35 | "today" is the ISO date of the instant |
| IsoTime.TodayIsIsoDate | app/api/biometric/checkin/route.ts:34-35 | "today" is the date part of the ISO timestamp; the `split("T")` cuts at the end of the date |
| IsoTime.SameDaySameToday | app/api/biometric/checkin/route.ts:35 | Two instants of the same UTC day have the same "today" |
| IsoTime.ThirtyDaysLater | app/api/cron/check-expiring-contracts/route.ts:15-16 | Thirty days of milliseconds later is thirty day numbers later |
| Enroll.Upsert | app/api/biometric/enroll/route.ts:10-49 | The route answers only 201, 401, 403, 404 or 500, and never writes devices, attendance, punches or profiles |
| Enroll.GatesInOrder | app/api/biometric/enroll/route.ts:10-28 | 401 without a session, then 403 for a non-admin, then 404 for an unknown device; 201 exactly when all pass and the write succeeds; anything else writes nothing |
| Enroll.EnrolledRow | app/api/biometric/enroll/route.ts:31-45 | On 201 the (device, employee) row is the returned row, with status "enrolled", the sent template and the request time; only that key is added or changed; devices, attendance and punches are untouched |
| Enroll.InactiveDeviceAccepted | app/api/biometric/enroll/route.ts:24-28 | The device's status is not checked: an admin enrols onto an inactive device with 201 |
| Enroll.ReEnrollKeepsOneRow | app/api/biometric/enroll/route.ts:31-39 | Enrolling the same pair twice leaves one row, with the first id and the second template and time |
| Enroll.EnrollmentOpensCheckin | app/api/biometric/enroll/route.ts:31-39 | After enrolment on an active device the employee passes both gates of the check-in route |
| Enroll.UpsertKeepsWellFormed | app/api/biometric/enroll/route.ts:31-43 | The enroll step keeps the tables well formed |
| Enroll.Write | app/api/biometric/enroll/route.ts:10-49 | The handler after the clock is read changes the database and answers as `Upsert` |
| Enroll.Post | app/api/biometric/enroll/route.ts:4-49 | The handler keeps the database well formed and follows `Upsert` at the ISO timestamp of `now` |
| DeviceRegister.Register | app/api/biometric/device/register/route.ts:10-40 | The route answers only 201, 401, 403 or 500, and never writes enrollments, attendance, punches or profiles |
| DeviceRegister.RejectionsWriteNothing | app/api/biometric/device/register/route.ts:10-40 | 401 "Unauthorized" without session, 403 "Only HR admins can register devices", 500 with the insert's message; none of them changes the tables |
| DeviceRegister.RegistrationAddsOneDevice | app/api/biometric/device/register/route.ts:24-36 | An admin's registration answers 201 and adds exactly one device under a fresh id, with the given name and hardware id, registered by the caller |
| DeviceRegister.RegisteredDeviceIsActive | app/api/biometric/device/register/route.ts:24-32 | The new device passes the check-in route's device gate at once |
| DeviceRegister.RegisterKeepsWellFormed | app/api/biometric/device/register/route.ts:24-34 | The register step keeps the tables well formed |
| DeviceRegister.Post | app/api/biometric/device/register/route.ts:4-40 | The handler keeps the database well formed and follows `Register` |
| EmployeeListing.Listing | app/api/biometric/employees/route.ts:25-42 | The listing has no more rows than the profiles table |
| EmployeeListing.Answer | app/api/biometric/employees/route.ts:4-52 | The route answers only 200, 401, 403 or 500; a 200 carries the listing |
| EmployeeListing.GatesInOrder | app/api/biometric/employees/route.ts:11-52 | No session answers 401 "Unauthorized"; a non-admin 403 "Only HR admins can access this"; a failed query 500 with its message; 200 exactly for a signed-in admin whose query succeeds |
| EmployeeListing.DeviceFilter | app/api/biometric/employees/route.ts:40-42 | The device filter applies exactly when the parameter is present and non-empty, and is then that id |
| EmployeeListing.ListingIsTheEmployees | app/api/biometric/employees/route.ts:25-38 | Every listed row is an employee profile and every employee profile is listed |
| EmployeeListing.DeviceFilterLeavesAtMostOne | app/api/biometric/employees/route.ts:40-42 | With a device filter an employee carries exactly its enrollment on that device, or none |
| EmployeeListing.FilterOnlyNarrows | app/api/biometric/employees/route.ts:35-42 | Filtered enrollments are a subset of the unfiltered ones, and without a filter every enrollment of the employee is embedded |
| EmployeeListing.Get | app/api/biometric/employees/route.ts:4-52 | The handler changes nothing and answers as `Answer`: 401, 403 "Only HR admins can access this", 500, or 200 with employee rows only |
| ObjectStorage.PublicUrl | app/api/upload/route.ts:33 | The public URL ends with the object path |
| ObjectStorage.PublicUrlInjective | app/api/upload/route.ts:33-35 | Distinct paths of one bucket have distinct public URLs |
| ObjectStorage.Stored | app/api/upload/route.ts:24-31 | An upload succeeds exactly when the call succeeds and either upsert is on or the path is free; success stores the file at the path, failure changes nothing |
| ObjectStorage.NoOverwrite | app/api/upload/route.ts:24-27 | Without upsert the object already at a path is kept |
| ObjectStorage.Bucket.Upload | app/api/upload/route.ts:24-27 | The bucket's objects and the result are those `Stored` gives |
| UploadRoute.StorageKey | app/api/upload/route.ts:22 | The key lies in the employee's folder, in the file type's subfolder |
| UploadRoute.StorageKeyDecodes | app/api/upload/route.ts:22 | For employee ids and file types without "/", equal keys mean equal employee, type, millisecond and file name |
| UploadRoute.ChecksStoreNothing | app/api/upload/route.ts:8-20 | 401 for an auth error or no user before the form is read; 400 "Missing required fields" when file, employeeId or fileType is missing; no rejected request stores anything |
| UploadRoute.SuccessStoresUnderKey | app/api/upload/route.ts:22-35 | 200 exactly when the upload call succeeds and the key is free; then the file is stored under the key and the body carries the key and its public URL; otherwise 400 and nothing changes |
| UploadRoute.Upload | app/api/upload/route.ts:4-39 | The route answers only 200, 400, 401 or 500, and anything but 200 leaves the bucket unchanged |
| UploadRoute.Post | app/api/upload/route.ts:4-39 | The handler changes the bucket and answers as `Upload` |
| Middleware.LastCookieWins | lib/supabase/middleware.ts:26-32 | After setting a list of cookies, a name holds the value of its last cookie |
| Middleware.OtherCookiesKept | lib/supabase/middleware.ts:26-32 | Names no cookie sets keep their value, and no name appears from nowhere |
| Middleware.CookieJar.Set | lib/supabase/middleware.ts:27 | Setting a cookie replaces that name's value only |
| Middleware.SetAll | lib/supabase/middleware.ts:26-32 | The request jar ends as the old jar with the cookies applied in order; the new response jar holds exactly the cookies applied to an empty jar |
| Middleware.UserRole | lib/supabase/middleware.ts:40-60 | A role is known only for a signed-in user, with the service key set and a lookup that returned |
| Middleware.Route | lib/supabase/middleware.ts:63-96 | Whenever a rule fires the decision is a redirect to "/auth/login", "/hr" or "/employee" |
| Middleware.UpdateSession | lib/supabase/middleware.ts:4-97 | The middleware redirects only to "/auth/login", "/hr" or "/employee", and when it continues it carries the cookies of the last `setAll` call applied in order |
| Middleware.AnonymousVisitors | lib/supabase/middleware.ts:67-71 | Without a user, every path other than "/" and the "/auth" pages redirects to "/auth/login", and those pass |
| Middleware.SignedInLeaveAuthPages | lib/supabase/middleware.ts:73-81 | A signed-in user on an "/auth" page other than "/auth/verify-email" goes to "/hr" when an admin, otherwise to "/employee" |
| Middleware.AreasAreSeparated | lib/supabase/middleware.ts:73-96 | A signed-in request passes through exactly when it is not on an "/auth" page other than "/auth/verify-email", reaches an "/hr" page only as an admin and an "/employee" page only as a non-admin |
| Middleware.HrAreaSendsNonAdminsAway | lib/supabase/middleware.ts:84-88 | A signed-in non-admin on an "/hr" page is redirected to "/employee" |
| Middleware.EmployeeAreaSendsAdminsAway | lib/supabase/middleware.ts:90-94 | A signed-in admin on an "/employee" page is redirected to "/hr" |
| Middleware.RedirectsSettle | lib/supabase/middleware.ts:63-96 | Redirect targets are "/auth/login", "/hr" or "/employee", and a target is not redirected again for the same user and role |
| Middleware.FailuresPassThrough | lib/supabase/middleware.ts:11-14 | A missing URL or anon key, or a thrown user lookup, passes the request through untouched |
| Middleware.NoServiceKeyNoAdmin | lib/supabase/middleware.ts:40-41 | Without the service key no user is an admin: never sent to "/hr" and always sent away from it |
| Middleware.RoleFailureIsNoRole | lib/supabase/middleware.ts:40-60 | A role lookup that throws behaves as a user without a profile |
| Middleware.ContinueCarriesRefreshedCookies | lib/supabase/middleware.ts:96 | When no rule fires, the response carries each refreshed cookie with the value of its last entry |
| CronJobs.AlertFor | lib/email-alerts.tsx:5-30 | Every alert goes to "hr@company.com" and names the employee |
| CronJobs.AlertEach | app/api/cron/check-incomplete-files/route.ts:31-35 | The loop sends one alert per employee, in list order, the i-th for the i-th employee |
| CronJobs.AlertsNameTheEmployees | lib/email-alerts.tsx:25-30 | There are as many alerts as employees and every alert names one of them |
| CronJobs.UnsetSecretAcceptsLiteralUndefined | app/api/cron/check-incomplete-files/route.ts:7 | As written, with the secret unset, the header "Bearer undefined" passes the gate |
| CronJobs.AuthorizedAsWritten | app/api/cron/check-incomplete-files/route.ts:7 | A header that passes the gate as written starts with "Bearer " |
| CronJobs.Authorized | app/api/cron/check-incomplete-files/route.ts:7-9 | The corrected gate admits no header that the gate as written refuses |
| CronJobs.AuthorizedRequiresSecret | app/api/cron/check-incomplete-files/route.ts:7-9 | The corrected gate refuses every request while no non-empty secret is set; it admits only headers the gate as written admits, and refuses in addition only requests made while the secret is unset or empty |
| CronJobs.GatesAgreeWhenConfigured | app/api/cron/check-expiring-contracts/route.ts:7-9 | With a non-empty secret set, the corrected gate and the gate as written agree on every header |
| IncompleteFilesCron.SelectedExactly | app/api/cron/check-incomplete-files/route.ts:15-29 | An employee is selected exactly when listed, "Active", and lacking government info, employment records or compensation; the selection keeps list order |
| IncompleteFilesCron.Selected | app/api/cron/check-incomplete-files/route.ts:15-29 | The selection is no longer than the table and every selected employee is active and incomplete |
| IncompleteFilesCron.Job | app/api/cron/check-incomplete-files/route.ts:15-41 | The job answers 200 or 500; on 200 `checked` is the number of alerts sent; a 500 sends nothing |
| IncompleteFilesCron.Run | app/api/cron/check-incomplete-files/route.ts:6-41 | With the gate as written, the route answers only 200, 401 or 500, and a 401 sends nothing |
| IncompleteFilesCron.RunCorrected | app/api/cron/check-incomplete-files/route.ts:7-9 | With the corrected gate, a request gets past 401 only while a non-empty secret is configured |
| IncompleteFilesCron.CheckedCountsAlerts | app/api/cron/check-incomplete-files/route.ts:7-41 | With the gate as written (the header compared with the template text): 401 "Unauthorized" exactly when the header differs, sending nothing; 500 "Cron job failed" on a failed client, sending nothing; 200 exactly when the gate passes and the client is created, with `checked` the number of alerts sent, one per selected employee in order, and none without data |
| IncompleteFilesCron.UnsetSecretRunsTheJob | app/api/cron/check-incomplete-files/route.ts:7-37 | As written, with the secret unset, the header "Bearer undefined" gets 200 and alerts every selected employee; the corrected route answers 401 and sends nothing |
| IncompleteFilesCron.CorrectedRunRefusesUnsetSecret | app/api/cron/check-incomplete-files/route.ts:7-9 | The corrected route answers 401 and sends nothing while the secret is unset or empty, and answers as written once it is set |
| IncompleteFilesCron.CompleteFilesNotAlerted | app/api/cron/check-incomplete-files/route.ts:27-29 | An employee with all three kinds of record is never selected |
| IncompleteFilesCron.Get | app/api/cron/check-incomplete-files/route.ts:6-41 | The handler, with the gate as written, answers and alerts as `Run` |
| ExpiringContractsCron.CutoffIsThirtyDaysAhead | app/api/cron/check-expiring-contracts/route.ts:15-23 | The cutoff is the ISO date of the day thirty days after today |
| ExpiringContractsCron.Cutoff | app/api/cron/check-expiring-contracts/route.ts:15-23 | The cutoff is written with digits, the sign and dashes only, and as `YYYY-MM-DD` for years 0-9999, which the text comparison with `date_hired` relies on |
| ExpiringContractsCron.SelectedExactly | app/api/cron/check-expiring-contracts/route.ts:18-23 | Selected exactly when "Contractual", "Active" and hired on or before the cutoff; list order kept |
| ExpiringContractsCron.Selected | app/api/cron/check-expiring-contracts/route.ts:18-23 | The selection is no longer than the table and every selected employee meets the three conditions |
| ExpiringContractsCron.LaterCutoffSelectsMore | app/api/cron/check-expiring-contracts/route.ts:23 | A later cutoff selects everyone an earlier one does |
| ExpiringContractsCron.CheckedCountsAlerts | app/api/cron/check-expiring-contracts/route.ts:7-35 | With the gate as written: 401 "Unauthorized" exactly when the header differs from the template text, before any query and sending nothing; 500 "Cron job failed" on a failed client; 200 exactly when the gate passes and the client is created, with `checked` the number of alerts sent, one per selected employee in order, and none without data |
| ExpiringContractsCron.Job | app/api/cron/check-expiring-contracts/route.ts:18-35 | The job answers 200 or 500; on 200 `checked` is the number of alerts sent; a 500 sends nothing |
| ExpiringContractsCron.Run | app/api/cron/check-expiring-contracts/route.ts:6-35 | With the gate as written, the route answers only 200, 401 or 500, and a 401 sends nothing |
| ExpiringContractsCron.RunCorrected | app/api/cron/check-expiring-contracts/route.ts:7-9 | With the corrected gate, a request gets past 401 only while a non-empty secret is configured |
| ExpiringContractsCron.UnsetSecretRunsTheJob | app/api/cron/check-expiring-contracts/route.ts:7-31 | As written, with the secret unset, the header "Bearer undefined" gets 200 and alerts every selected employee; the corrected route answers 401 and sends nothing |
| ExpiringContractsCron.CorrectedRunRefusesUnsetSecret | app/api/cron/check-expiring-contracts/route.ts:7-9 | The corrected route answers 401 and sends nothing while the secret is unset or empty, and answers as written once it is set |
| ExpiringContractsCron.RunWithCutoff | app/api/cron/check-expiring-contracts/route.ts:7-35 | The handler for a given cutoff, with the gate as written, answers and alerts as `Run` |
| ExpiringContractsCron.Get | app/api/cron/check-expiring-contracts/route.ts:6-35 | The handler, with the gate as written, answers and alerts as `Run` at the cutoff thirty days after `now` |
| FilesDashboard.FilteredExactly | components/hr/files-dashboard.tsx:38-50 | An employee is shown exactly when name or e-mail contains the search ignoring case, and each filter is "all" or matches; the shown list is an order-preserving subsequence |
| FilesDashboard.Filtered | components/hr/files-dashboard.tsx:38-50 | The shown list is no longer than the list and every shown employee passes the three tests |
| FilesDashboard.NoFilterShowsAll | components/hr/files-dashboard.tsx:40-48 | The empty search with both filters "all" shows the whole list |
| FilesDashboard.DepartmentNarrows | components/hr/files-dashboard.tsx:44 | A department filter shows a subset of "all", of that department only |
| FilesDashboard.DepartmentsExactly | components/hr/files-dashboard.tsx:52 | The department choices are exactly the non-empty departments of the employees, each once |
| FilesDashboard.DepartmentsInFirstOccurrenceOrder | components/hr/files-dashboard.tsx:52 | The department choices are ordered by first occurrence in the department column |
| FilesDashboard.Departments | components/hr/files-dashboard.tsx:52 | No department choice is empty |
| FilesDashboard.StatsFit | components/hr/files-dashboard.tsx:55-57 | active + resigned never exceeds total |
| FilesDashboard.StatsAdd | components/hr/files-dashboard.tsx:55-57 | The three counts of two lists put together add up |
| FilesDashboard.StatsCountTheStatuses | components/hr/files-dashboard.tsx:56-57 | Active counts exactly "Regular" and "Probationary", resigned exactly "Resigned" |
| FilesDashboard.StatsOf | components/hr/files-dashboard.tsx:55-57 | The total is the number of employees, and neither the active nor the resigned count exceeds it |
| EnrollmentDialog.EnrollButtonExactly | components/hr/biometric-enrollment-dialog.tsx:94-152 | The status is "not_enrolled" without entries, else the first entry's; the Enroll button shows exactly when the status is neither "enrolled" nor "pending" |
| EnrollmentDialog.EnrollmentStatus | components/hr/biometric-enrollment-dialog.tsx:94-98 | The status is "not_enrolled" or one of the employee's enrollment statuses |
| EnrollmentDialog.ShowsEnrollButton | components/hr/biometric-enrollment-dialog.tsx:132-152 | An employee who is not enrolled is offered the Enroll button |
| EnrollmentDialog.EnrollBody | components/hr/biometric-enrollment-dialog.tsx:65-73 | The request sends the dialog's device, the chosen employee and the template "mock_template" |
| EnrollmentDialog.ClickEnrols | components/hr/biometric-enrollment-dialog.tsx:62-82 | An admin's click on an existing device gets 201 and an "enrolled" row with "mock_template"; on an active device the employee can then check in |
| EnrollmentDialog.Dialog.constructor | components/hr/biometric-enrollment-dialog.tsx:33-35 | The dialog opens with no employees, loading, and no request in flight |
| EnrollmentDialog.Dialog.BeginFetch | components/hr/biometric-enrollment-dialog.tsx:43-46 | Fetching sets loading and keeps the list |
| EnrollmentDialog.Dialog.EndFetch | components/hr/biometric-enrollment-dialog.tsx:47-59 | The list becomes the fetched rows on success and is kept on failure; loading ends false |
| EnrollmentDialog.Dialog.BeginEnroll | components/hr/biometric-enrollment-dialog.tsx:62-73 | The chosen employee's button is disabled and the request body is sent |
| EnrollmentDialog.Dialog.EndEnroll | components/hr/biometric-enrollment-dialog.tsx:75-91 | Only success starts a refetch; enrolling is cleared and every button enabled either way |
| HrSettings.DepartmentDeleted | components/hr/hr-settings.tsx:58-66 | After a delete exactly the departments with other ids remain, in order; an absent id changes nothing |
| HrSettings.PositionDeleted | components/hr/hr-settings.tsx:68-76 | The same for positions |
| HrSettings.DepartmentDeletesCommute | components/hr/hr-settings.tsx:62 | Deleting an id twice equals deleting it once, and two deletes commute |
| HrSettings.Settings.constructor | components/hr/hr-settings.tsx:29-33 | Both lists start empty and the page starts loading |
| HrSettings.Settings.BeginFetch | components/hr/hr-settings.tsx:41-43 | Fetching sets loading and keeps both lists |
| HrSettings.Settings.EndFetch | components/hr/hr-settings.tsx:44-55 | Each list becomes its query's rows, or empty with none; loading ends false |
| HrSettings.Settings.DeleteDepartment | components/hr/hr-settings.tsx:58-66 | A successful remote delete removes the id from departments; an error keeps them; positions never change |
| HrSettings.Settings.DeletePosition | components/hr/hr-settings.tsx:68-76 | The same on positions, departments never change |
| HrDocuments.SearchExactly | components/hr/hr-documents.tsx:37-44 | Shown exactly the documents whose title or category contains the term ignoring case, in order; the empty term shows all |
| HrDocuments.SearchDocuments | components/hr/hr-documents.tsx:37-44 | The shown list is no longer than the documents and every shown document matches the term |
| HrDocuments.DeletedDocumentNotShown | components/hr/hr-documents.tsx:60-67 | Deleting removes exactly that id; searching after deleting equals deleting from the search, so the deleted document is not shown |
| HrDocuments.DocumentCenter.constructor | components/hr/hr-documents.tsx:25-29 | The page starts with no documents, the empty search and loading; the shown list is the search of the documents |
| HrDocuments.DocumentCenter.Refilter | components/hr/hr-documents.tsx:37-44 | The shown list becomes the search of the documents by the term; nothing else changes |
| HrDocuments.DocumentCenter.SetSearchTerm | components/hr/hr-documents.tsx:37-44 | The shown list is recomputed from the documents and the new term |
| HrDocuments.DocumentCenter.BeginFetch | components/hr/hr-documents.tsx:46-48 | Fetching sets loading and changes nothing else |
| HrDocuments.DocumentCenter.EndFetch | components/hr/hr-documents.tsx:46-57 | An error keeps the documents, otherwise they become the rows; the shown list follows; loading ends false |
| HrDocuments.DocumentCenter.Delete | components/hr/hr-documents.tsx:60-67 | A successful delete removes that id from the documents, an error keeps them; the shown list follows |
| HrDocuments.CategoryColorFallback | components/hr/hr-documents.tsx:78-87 | An unknown category gets the "Other" grey; the five known categories have distinct colours |
| HrDocuments.CategoryColor | components/hr/hr-documents.tsx:78-87 | Every category gets one of the table's colours |
| HrDocuments.UnitIndex | components/hr/hr-documents.tsx:74 | The unit index of a positive size is the largest i with 1024^i <= bytes |
| HrDocuments.GibibyteHasNoUnitAsWritten | components/hr/hr-documents.tsx:73-75 | As written, a size of 1024^3 bytes or more has no unit |
| HrDocuments.FiveGibibytesAsWritten | components/hr/hr-documents.tsx:75 | As written, 5368709120 bytes has no unit |
| HrDocuments.UnitAsWrittenCases | components/hr/hr-documents.tsx:73-75 | As written, a positive size has a unit exactly below 1024^3 bytes, and it is one of the table's |
| HrDocuments.FormatFileSizeAsWritten | components/hr/hr-documents.tsx:70-76 | As written: size 0 shows "0 Bytes"; below 1024^3 bytes the amount, a space and a unit of the table; from 1024^3 bytes on, the amount followed by " undefined" |
| HrDocuments.UnitAlwaysDefined | components/hr/hr-documents.tsx:73-75 | The corrected unit is always one of the table's; below 1024^3 it agrees with the code as written; "Bytes" exactly below 1024 |
| HrDocuments.FormatFileSize | components/hr/hr-documents.tsx:70-76 | Corrected: size 0 shows "0 Bytes"; any other size shows the amount, a space and a unit of the table |
| HrDocuments.FormattersAgreeBelowGibibyte | components/hr/hr-documents.tsx:70-76 | Below 1024^3 bytes the corrected display equals the display as written; from there on the corrected one shows "MB" |
| HrBiometricDevices.DeviceDeleted | components/hr/hr-biometric-devices.tsx:66 | After a delete exactly the devices with other ids remain, in order; deleting again changes nothing |
| HrBiometricDevices.DevicePage.constructor | components/hr/hr-biometric-devices.tsx:25-26 | The page starts with no devices and loading |
| HrBiometricDevices.DevicePage.BeginFetch | components/hr/hr-biometric-devices.tsx:35-37 | Fetching sets loading and keeps the devices |
| HrBiometricDevices.DevicePage.EndFetch | components/hr/hr-biometric-devices.tsx:37-55 | A failure keeps the devices, otherwise they become the rows; loading ends false |
| HrBiometricDevices.DevicePage.DeleteDevice | components/hr/hr-biometric-devices.tsx:57-78 | Without confirmation nothing is sent and nothing changes; a confirmed successful delete removes the id; an error keeps the list |
| HrBiometricDevices.StatusColorsDistinguish | components/hr/hr-biometric-devices.tsx:80-91 | Grey exactly for statuses other than "active" and "suspended", and those two differ |
| HrBiometricDevices.StatusColor | components/hr/hr-biometric-devices.tsx:80-91 | Every status gets the green, the grey or the red badge |
| DocumentUploadDialog.DocumentTable.Insert | components/hr/document-upload-dialog.tsx:47-57 | A successful insert appends the row, a failed one appends nothing |
| DocumentUploadDialog.ExtensionAfterLastDot | components/hr/document-upload-dialog.tsx:37 | The extension is the suffix after the last dot: no dot in it, the whole name or preceded by a dot |
| DocumentUploadDialog.NoDotWholeName | components/hr/document-upload-dialog.tsx:37 | A name without a dot is its own extension |
| DocumentUploadDialog.TrailingDotEmpty | components/hr/document-upload-dialog.tsx:37 | A name ending in a dot has the empty extension |
| DocumentUploadDialog.ObjectPathDecodes | components/hr/document-upload-dialog.tsx:38-39 | Equal storage paths mean the same millisecond and the same extension |
| DocumentUploadDialog.ObjectPath | components/hr/document-upload-dialog.tsx:38-39 | The path lies in the "documents/" folder |
| DocumentUploadDialog.Form.constructor | components/hr/document-upload-dialog.tsx:21-25 | The form starts with empty title and description, category "HR Forms", no file, not loading |
| DocumentUploadDialog.Form.HandleSubmit | components/hr/document-upload-dialog.tsx:29-69 | With no file or title nothing changes; otherwise the file is uploaded under "documents/" + time + "." + extension without overwriting. The row, with that path's public URL, is inserted only after a successful upload. The form resets to "", "", "HR Forms", no file only when both succeed, and loading ends false |
| Lists.Filter | components/hr/files-dashboard.tsx:39 | A filtered list is no longer than the list, and every kept element passes the test |
| Lists.FilterMembership | components/hr/files-dashboard.tsx:39 | An element is kept exactly when it is in the list and passes the test |
| Lists.FilterIsSubsequence | components/hr/files-dashboard.tsx:39 | A filtered list is an order-preserving subsequence of its source |
| Lists.FilterFilter | app/api/cron/check-incomplete-files/route.ts:25-29 | Two filters in a row keep what both tests accept, in either order |
| Lists.Dedupe | components/hr/files-dashboard.tsx:52 | `[...new Set(s)]` holds each element of the list and only those, without repeats |
| Lists.DedupeFirstOccurrenceOrder | components/hr/files-dashboard.tsx:52 | The deduplicated list is ordered by first occurrence |
| Lists.DedupeOrdered | components/hr/files-dashboard.tsx:52 | Any two deduplicated elements occur in the source in the order they are listed |
| Lists.OrderSurvivesFilter | components/hr/files-dashboard.tsx:52 | Order by first occurrence in a filtered list is order by first occurrence in the source |
| Lists.Map | components/hr/files-dashboard.tsx:52 | `map` keeps the length and puts f of the i-th element at position i |
| Lists.WithoutKeyExactly | components/hr/hr-settings.tsx:62 | Removal by key drops exactly the entries with that key, keeps order, and changes nothing for an absent key |
| Lists.WithoutKeyIdempotentCommutes | components/hr/hr-settings.tsx:62 | Removing a key twice is removing it once, and two removals commute |
| Lists.WithoutKeyFilterCommute | components/hr/hr-documents.tsx:64 | Removing then filtering equals filtering then removing |
| Strings.ToLower | components/hr/files-dashboard.tsx:41 | Lower-casing keeps the length and leaves no capital A-Z |
| Strings.ContainsEmpty | components/hr/files-dashboard.tsx:40-42 | The empty search term matches every string |
| Strings.ToLowerIdempotent | components/hr/files-dashboard.tsx:41 | Lower-casing twice is lower-casing once |
| Strings.Split | app/api/biometric/checkin/route.ts:35 | `split` always yields at least one piece |
| Strings.SplitJoin | app/api/biometric/checkin/route.ts:35 | Joining the pieces of a split with the separator gives back the string |
| Strings.SplitFirstPiece | app/api/biometric/checkin/route.ts:35 | The first piece of a split is the text before the first separator |
| Strings.LastPieceIsSuffixAfterLastSeparator | components/hr/document-upload-dialog.tsx:37 | `split(c).pop()` is the longest suffix without `c` |
| Strings.Decimal | app/api/upload/route.ts:22 | A rendered natural number is a non-empty string of digits |
| Strings.DecimalRoundTrip | app/api/upload/route.ts:22 | Reading a rendered number back gives the number |
| Strings.DecimalInjective | app/api/upload/route.ts:22 | Different numbers render differently |
| Strings.SeparatorSplitsUniquely | app/api/upload/route.ts:22 | Two strings glued around a separator absent from the left parts determine both parts |
| Strings.LexLeTransitive | app/api/cron/check-expiring-contracts/route.ts:23 | String order on dates is transitive |
| Strings.LexLeTotal | app/api/cron/check-expiring-contracts/route.ts:23 | Any two dates are ordered one way or the other |

## Left out

- Request parsing: the biometric routes are modelled from the parsed JSON body. A body that is not JSON makes `request.json()` throw, which those routes answer with 500 and the parser's message; that path, and a failure to create the database client, are not modelled. The upload route's unreadable form data is modelled, as `form` none giving 500 "Upload failed".
- Foreign calls: Supabase queries, storage and auth, Resend e-mail and the audit logger are replaced by in-memory tables and buckets and by `Outcome` parameters. E-mail HTML bodies are dropped; an alert keeps its recipient, subject and employee.
- Failed reads: the lookups of a device, an enrollment, the day's attendance row and a profile are taken to return the table's contents. A read that fails with an error is not modelled; in the check-in route it would answer 404 or 403, or open a second attendance row for the day.
- Toasts and logging: the toasts of the devices page and of the enrollment dialog, and every `console` message, have no effect on the model's state and are dropped.
- IncompleteFilesCron.Incomplete: the test `?.[0]` on the three embeds assumes they come back as arrays, one-to-many relations in the schema. For a one-to-one relation PostgREST returns an object or null and the test would flag every row; the schema is not part of this model.
- Concurrency: two scans racing to open the same day's row are not modelled; every handler runs alone.
- Enroll.Upsert: the upsert's conflict key is in the database schema, not in the routes. It is modelled as (device_id, employee_id).
- DeviceRegister.NewDevice: a registered device's status is taken to be "active", the column default, which is not in the routes.
- BiometricStore.SerialId: generated row ids are modelled as decimal renderings of an insert counter rather than UUIDs. Only their freshness matters to the model.
- EmployeeListing.EmployeeRow: the embedded enrollments are a set, because the order PostgREST returns an embedding in is not specified. The `!left` embedding is reduced to the filter the route requests.
- ExpiringContractsCron.Cutoff: `setDate(getDate() + 30)` works in the server's local time. The model adds thirty days of milliseconds, which is exact for a UTC server. Daylight-saving shifts in other zones are not modelled.
- ExpiringContractsCron.Expiring: `date_hired` is compared with the cutoff as text. This matches the database's date order for dates written `YYYY-MM-DD`, the shape proved for the cutoff in years 0-9999; that `date_hired` has this shape is up to the database and is not modelled.
- IsoTime.IsoTimestamp: `toISOString` throws for instants beyond ±8.64e15 ms. Such instants are not excluded.
- Strings.LowerChar: `toLowerCase` is modelled for the ASCII letters only. Other Unicode case mappings are not modelled.
- HrDocuments.FormatFileSizeAsWritten: the rounded amount `Math.round(bytes / 1024^i * 100) / 100` is a floating-point rendering. It is a parameter, here and in the corrected `FormatFileSize`; only the zero case and the unit are modelled.
- HrDocuments.CategoryColor: a category named like an inherited object property (for example "toString") reads the prototype in JavaScript. The model treats it as unknown.
- files-dashboard.tsx lines 58-59: the `* 0.15` and `* 0.85` estimates are floating point and are not modelled. The random placeholder at line 232 is not modelled either.
- HrSettings.Settings.EndFetch: the `catch` of `fetchData` (a rejected `Promise.all`) is not modelled. The Supabase client reports errors in its result instead of throwing.
- ObjectStorage.PublicUrl: the client library's `getPublicUrl` may percent-encode the object path. The model joins the path unencoded, so its URLs agree with the library's only for paths without characters that need encoding.
- UploadRoute.Upload: the `cacheControl` option and the storage's exact text for a taken path ("The resource already exists" is assumed) are not checked against the storage service.
- Middleware.SetAll: cookie options (path, expiry, flags) are dropped; a cookie is a name and a value.
- Middleware.UpdateSession: the session refresh may call `setAll` more than once; each call replaces the response, so `refreshed` stands for the batch of the last call, and the request jar's earlier batches are not modelled there.
- DocumentUploadDialog.Form.HandleSubmit: the intermediate `loading = true` state during the awaits is set but not exposed in the contract. The error is only logged, as in the source.
- Cron gates: the handlers `Get` and `RunWithCutoff` model the gate as written. `RunCorrected` is the intended variant, and no handler uses it.
- Time: `Date.now()` is a natural number of milliseconds, and `new Date()` an integer. The project URL that public URLs start with is a parameter.

## Findings

| source | as written | input that shows it | evidently intended | confidence | as-written member | corrected member |
|---|---|---|---|---|---|---|
| app/api/cron/check-incomplete-files/route.ts:7 | The gate compares the header with the template `Bearer ${process.env.CRON_SECRET}`; an unset secret interpolates as "undefined" | `CRON_SECRET` unset and header `authorization: Bearer undefined`: the job runs | No request is admitted unless a non-empty secret is configured and sent as its bearer token | high, not executed | IncompleteFilesCron.UnsetSecretRunsTheJob | IncompleteFilesCron.CorrectedRunRefusesUnsetSecret |
| app/api/cron/check-expiring-contracts/route.ts:7 | The same template gate | `CRON_SECRET` unset and header `authorization: Bearer undefined`: the job runs | The same | high, not executed | ExpiringContractsCron.UnsetSecretRunsTheJob | ExpiringContractsCron.CorrectedRunRefusesUnsetSecret |
| components/hr/hr-documents.tsx:73-75 | The unit is `sizes[i]` from `["Bytes", "KB", "MB"]`, with i = floor(log base 1024 of the size) | `file_size` 5368709120 (5 GiB): i = 3, so the size shows as "5 undefined" | Every size has a unit; past the table, the largest unit | high, not executed | HrDocuments.FormatFileSizeAsWritten | HrDocuments.FormatFileSize |
