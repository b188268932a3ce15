# Training-institute portal: a Dafny model

The system is a single-page React application backed by a Supabase (PostgreSQL) store. It
serves a training institute in three ways:

- the public site, with student login, admin login, an HR lookup of a student by ID, and a
  registration form;
- the admin portal, with tabs over students, attendance, tasks, projects, fees and notes;
- the student dashboard, with tabs for home statistics and photo, tasks, projects,
  attendance, fees and resume.

This project models the event handlers and derived values of those screens. The model uses
these conventions:

- **Shared modules.** `Text` models the JavaScript string operations the screens use
  (`trim`, `toUpperCase`, `toLowerCase`, `includes`, `startsWith`, `split(',')` and decimal
  formatting). `Table` models the store: a table is a sequence of `Row(id, cols)`, and it
  has `Where`, `Insert` (fresh ids), `UpdateById`, `DeleteById`, `Count` and `MaybeSingle`.
  `Records` holds the row types. `Percent` models `Math.round(p / t * 100)` with exact half-up rounding (see "## Left out"). `Selection`
  models the checkbox lists of student IDs.
- **One module per screen.** Each screen is a `class` whose fields are the component's
  `useState` variables, and each handler is a method that `modifies` them. There are two
  exceptions, both screens that only load and display: the student's attendance tab
  (`DashboardAttendance`, a `Screen` value with the pure `LoadAttendance`) and the student's
  fees tab (`DashboardFees`, a `FeesTab` value with the pure `LoadFees`, `MountFromStorage`
  and `Mount`).
- **The store is an input.** A handler receives the table it reads or writes, plus the
  error the store would return (`error: Option<string>`, or a `fails` flag). It returns the
  table after its write.
- **Browser calls are parameters.**
  - `confirm()` is a `confirmed: bool` parameter.
  - An `alert()` becomes a returned message or an outcome value.
  - A `setTimeout` callback is a method of its own, for example `MessageTimerElapsed`.
  - "Today" and "now" are parameters.
- **Specification functions.** Every derived value (a filtered list, a count, a total, the
  rows a bulk action inserts) is a pure function. The handlers' postconditions are stated
  through these functions. Lemmas relate the functions to each other: each cycle undoes or
  preserves something, and the admin screens' status counters add up to the number of
  rows (`StatusCountsAddUp`, `CountersBounded`).

## Model

| member | source | states |
|---|---|---|
| Session.Render | src/App.tsx:62-74 | The admin portal shows exactly when an admin is logged in. Otherwise the admin prompt shows exactly when it was requested. Otherwise the dashboard shows exactly when a student is logged in. In every other case the public site shows. The names shown are the stored ones. |
| Session.InitialRendersPublicSite | src/App.tsx:19-26 | The initial state renders the public site. |
| Session.Step | src/App.tsx:38-60 | Only a student login or logout changes the student side (logged-in flag, id and name). Only an admin login or logout changes the admin side (flag and name). |
| Session.StepPreservesInv | src/App.tsx:38-60 | Every enabled event keeps the session invariant. At most one role is active, the admin prompt is never up while someone is logged in, and a logged-out side holds empty names. |
| Session.RunPreservesInv | src/App.tsx:38-60 | Any admissible sequence of events keeps the invariant. |
| Session.NeverBothLoggedIn | src/App.tsx:62-72 | From the initial state, no admissible run has a student and an admin logged in at once. |
| Session.ShowAdminLoginChanges | src/App.tsx:44-60 | The admin prompt opens only through the admin-click event. It closes only through an admin login or an admin logout. |
| Session.AdminPromptOnlyExit | src/App.tsx:66-68 | While the admin prompt shows, the only way off it is a successful admin login, and that login lands on the admin portal with the admin's name. |
| Session.LogoutReturnsToPublicSite | src/App.tsx:50-60 | A logout from the dashboard, or an admin logout from the portal, renders the public site. |
| Session.App.constructor | src/App.tsx:19-26 | All flags start false and all names start empty. |
| Session.App.HandleLoginSuccess | src/App.tsx:38-42 | Stores the student's id and name and sets logged-in. The admin side and the modals are unchanged. |
| Session.App.HandleAdminLoginSuccess | src/App.tsx:44-48 | Stores the admin name, sets admin-logged-in and hides the prompt. The student side is unchanged. |
| Session.App.HandleLogout | src/App.tsx:50-54 | Clears the student side only. |
| Session.App.HandleAdminLogout | src/App.tsx:56-60 | Clears the admin side and the prompt only. |
| Session.App.HandleAdminClick | src/App.tsx:84 | Sets the admin-prompt flag only. |
| Session.App.OpenRegistration | src/App.tsx:83 | Opens the registration modal only. |
| Session.App.CloseRegistration | src/App.tsx:88 | Closes the registration modal only. |
| Session.App.CallbackTimerElapsed | src/App.tsx:28-36 | The delayed callback opens the callback modal only. |
| Session.App.CloseCallback | src/App.tsx:92 | Closes the callback modal only. |
| StudentLogin.LookupKey | src/components/Login.tsx:25 | The lookup key is the trimmed input, upper-cased: each lower-case ASCII letter becomes the upper-case letter whose lower case it is, and every other character is kept, so the length is the trimmed length. Only ASCII letters are case-mapped (see "## Left out"). |
| StudentLogin.Authenticate | src/components/Login.tsx:21-38 | An error results exactly when the store fails or the key matches more than one row. Login succeeds exactly when one row matches and its password equals the input, and it then yields that row's id and name. |
| StudentLogin.Message | src/components/Login.tsx:31-40 | The form shows an error exactly when the login does not succeed; an unknown ID and a wrong password give the same text. |
| StudentLogin.SameMessageForUnknownIdAndWrongPassword | src/components/Login.tsx:30-33 | An unknown ID and a wrong password give the same message. |
| StudentLogin.LoginIffCredentialsMatch | src/components/Login.tsx:25-36 | With unique IDs, a student whose ID is the key logs in if and only if the password matches. On a mismatch the result is a rejection. |
| StudentLogin.LowercaseIdNeverLogsIn | src/components/Login.tsx:25 | A stored ID that holds a lower-case letter can never log in, whatever is typed. |
| StudentLogin.KeyIgnoresPadding | src/components/Login.tsx:25 | Leading and trailing white space never changes the key. |
| StudentLogin.LowercaseTypingFindsStoredId | src/components/Login.tsx:25 | A stored ID with no lower-case letters and no blanks at its ends is the key of its all-lower-case spelling, typed with any blanks around it, so typing it that way finds it. |
| StudentLogin.LoginScenarios | src/components/Login.tsx:16-45 | Examples: the exact ID logs in; a padded lower-case ID logs in; a wrong password or an unknown ID is rejected; a store failure is an error. |
| StudentLogin.LoginForm.constructor | src/components/Login.tsx:11-14 | The form starts empty, not loading, with no error. |
| StudentLogin.LoginForm.HandleSubmit | src/components/Login.tsx:16-45 | Always ends not loading. It signals success with the row's id and name exactly when `Authenticate` logs in, and otherwise it sets that outcome's message. |
| AdminLogin.Check | src/components/AdminLogin.tsx:21-33 | An error results exactly when the store fails or more than one row matches. Rejection results exactly when no row has that exact username and password. Admission yields the matching row's full name. |
| AdminLogin.Message | src/components/AdminLogin.tsx:33-36 | The form shows an error exactly when the admin is not admitted. |
| AdminLogin.AdmittedIffExactPair | src/components/AdminLogin.tsx:21-33 | With unique usernames, an admin is admitted if and only if the password is exactly theirs. |
| AdminLogin.NoNormalisation | src/components/AdminLogin.tsx:24-25 | The username is compared as typed: a capitalised or padded username is rejected. |
| AdminLogin.AdminLoginForm.constructor | src/components/AdminLogin.tsx:10-13 | The form starts empty, with no error and not loading. |
| AdminLogin.AdminLoginForm.HandleSubmit | src/components/AdminLogin.tsx:15-42 | Always ends not loading. It signals the admin's name exactly when `Check` admits, and otherwise it sets that outcome's message. |
| HrPortal.SearchOutcomes | src/components/HRPortal.tsx:33-64 | A blank input gives the "enter an ID" result. Otherwise the outcome is error, not-found or shown, exactly as the store lookup of the normalised key fails, finds nothing or finds one row. A shown student is a row of the table whose ID is the key. |
| HrPortal.Search | src/components/HRPortal.tsx:33-64 | One search: the blank guard, then the normalised lookup (a definition; `SearchOutcomes` states every outcome, including that a shown student is a table row whose ID is the key). |
| HrPortal.Message | src/components/HRPortal.tsx:36-59 | The portal shows an error exactly when no student is shown: the blank, not-found and failure texts. |
| HrPortal.NoMatchIffAbsent | src/components/HRPortal.tsx:45-57 | The lookup reports absence exactly when no row carries the key. |
| HrPortal.SearchAgreesWithLogin | src/components/HRPortal.tsx:48 | HR search and student login normalise the ID the same way. A shown student is the one login would authenticate, and every student who can log in with a non-blank ID is found by HR. |
| HrPortal.Portal.constructor | src/components/HRPortal.tsx:28-31 | Starts with an empty ID, no data, no error, not searching. |
| HrPortal.Portal.SetStudentId | src/components/HRPortal.tsx:92 | The ID box sets the typed ID and nothing else. |
| HrPortal.Portal.HandleSearch | src/components/HRPortal.tsx:33-64 | The shown data and the error message follow `Search`, and the handler ends not searching. |
| Registration.With | src/components/RegistrationForm.tsx:23-29 | Changing one field sets that field and leaves every other field unchanged. |
| Registration.WithLaws | src/components/RegistrationForm.tsx:23-29 | Writing a field's own value changes nothing, and the last write to a field wins. |
| Registration.ToRow | src/components/RegistrationForm.tsx:39-48 | The inserted row carries each form field in its own column. |
| Registration.Submittable | src/components/RegistrationForm.tsx:109-191 | The browser's constraint validation: every field is filled, the qualification is a listed option, and the mobile number is ten digits. |
| Registration.TenDigits | src/components/RegistrationForm.tsx:161 | A definition: `pattern="[0-9]{10}"`, exactly ten digits (`MobileExamples` gives cases each way). |
| Registration.InsertedRowValid | src/components/RegistrationForm.tsx:138-161 | A submittable form inserts a listed qualification and a ten-digit mobile number. |
| Registration.MobileExamples | src/components/RegistrationForm.tsx:160-161 | Ten digits pass the mobile pattern; a space or a ninth-digit number fails it. |
| Registration.RegistrationForm.constructor | src/components/RegistrationForm.tsx:14-21 | The form starts with every field empty. |
| Registration.RegistrationForm.HandleChange | src/components/RegistrationForm.tsx:23-29 | Updates one field and clears the error. |
| Registration.RegistrationForm.HandleSubmit | src/components/RegistrationForm.tsx:31-62 | On success it appends `ToRow(form)`, shows success and schedules the close. On failure the table is unchanged and the failure message is set. Either way it ends not submitting. |
| StudentsOverview.DefaultForm | src/components/admin/StudentsOverview.tsx:13-44 | The blank add-student form has every column empty except `status = "active"`, and it marks the student as a trainee. |
| StudentsOverview.ToStudent | src/components/admin/StudentsOverview.tsx:62-65 | The inserted row keeps the trainee flag, and the columns the form does not write (attendance, scores, rating, photo) are empty. |
| StudentsOverview.ToStudentKeepsEveryColumn | src/components/admin/StudentsOverview.tsx:64 | The inserted row carries every form column unchanged, including the trainee flag. |
| StudentsOverview.AddedLowercaseIdCannotLogIn | src/components/admin/StudentsOverview.tsx:424 | A student added with a lower-case letter in the ID can never log in through the student login. |
| StudentsOverview.FilteredStudents | src/components/admin/StudentsOverview.tsx:149-152 | Keeps exactly the students whose lower-cased name or ID contains the lower-cased term. |
| StudentsOverview.EmptyTermShowsAll | src/components/admin/StudentsOverview.tsx:149-152 | An empty search lists every student. |
| StudentsOverview.SearchIgnoresTermCase | src/components/admin/StudentsOverview.tsx:149-152 | An upper-cased term filters the same as the original term, under ASCII case mapping (see "## Left out"). |
| StudentsOverview.Query | src/components/admin/StudentsOverview.tsx:114-117 | A detail query returns at most its limit, only rows of that student, the first matches of the table, or nothing when the query failed. |
| StudentsOverview.LoadDetails | src/components/admin/StudentsOverview.tsx:112-136 | Details hold at most 5 tasks, 5 notes, 5 projects and 10 attendance rows, all of that student. The attendance stats count these rows, and the percentage is the rounded present share. |
| StudentsOverview.AddError | src/components/admin/StudentsOverview.tsx:68-69 | The message is never empty, and it is the store's message when there is one. |
| StudentsOverview.Overview.constructor | src/components/admin/StudentsOverview.tsx:6-44 | Empty lists, no expanded student, and the default form. |
| StudentsOverview.Overview.LoadStudents | src/components/admin/StudentsOverview.tsx:50-56 | Replaces the list with the table unless the query fails. |
| StudentsOverview.Overview.SetSearchTerm | src/components/admin/StudentsOverview.tsx:177 | The search box sets the term and nothing else. |
| StudentsOverview.Overview.SetColumn | src/components/admin/StudentsOverview.tsx:410-830 | Sets one form column and keeps the form well formed. |
| StudentsOverview.Overview.SetTrainee | src/components/admin/StudentsOverview.tsx:844 | Sets the trainee flag only. |
| StudentsOverview.Overview.OpenAddModal | src/components/admin/StudentsOverview.tsx:160 | Shows the add modal. |
| StudentsOverview.Overview.CloseAddModal | src/components/admin/StudentsOverview.tsx:378 | Hides the add modal. |
| StudentsOverview.Overview.HandleAddStudent | src/components/admin/StudentsOverview.tsx:58-110 | On error the table is unchanged and the error message is set. On success the form's row is appended, the success message is set and the list is reloaded. |
| StudentsOverview.Overview.AddTimerElapsed | src/components/admin/StudentsOverview.tsx:72-107 | Closes the modal, clears the message and resets the form to the default. |
| StudentsOverview.Overview.ToggleStudentExpanded | src/components/admin/StudentsOverview.tsx:138-147 | Collapses an expanded student. Otherwise it expands the student and loads the details exactly when `studentDetails[id]` is falsy: not loaded yet and not a name inherited from `Object.prototype` such as "constructor". |
| StudentsOverview.Cached | src/components/admin/StudentsOverview.tsx:143 | A definition: `studentDetails[id]` is truthy exactly when the details were loaded or the ID is one of the twelve names an object inherits (`InheritedName`). |
| Percent.Percentage | src/components/dashboard/DashboardAttendance.tsx:32 | The result is at most 100, and it is 0 for an empty whole. Otherwise it is within half a point of `100 * part / whole`, rounding halves up. |
| Percent.PercentageUnique | src/components/dashboard/DashboardAttendance.tsx:32 | That rounding condition has exactly one solution. |
| Percent.PercentageEnds | src/components/dashboard/DashboardAttendance.tsx:32 | All present gives 100 and none present gives 0. |
| Percent.PercentageExamples | src/components/dashboard/DashboardAttendance.tsx:32 | 2 of 3 gives 67 and 1 of 8 gives 13. |
| DashboardAttendance.Summarize | src/components/dashboard/DashboardAttendance.tsx:24-33 | Total is the row count, present counts the present rows, absent counts every other row, and the percentage is the rounded present share. |
| DashboardAttendance.AbsentIncludesLate | src/components/dashboard/DashboardAttendance.tsx:26-31 | The "absent" figure is absent rows plus late rows. |
| DashboardAttendance.AllPresentIsHundred | src/components/dashboard/DashboardAttendance.tsx:26-32 | A non-empty all-present history gives 100% and no absences. |
| DashboardAttendance.LoadAttendance | src/components/dashboard/DashboardAttendance.tsx:17-35 | A failed query changes nothing. Otherwise the screen holds exactly this student's rows, and its stats summarise them. |
| Records.Roster | src/components/admin/AttendanceManagement.tsx:40-49 | The roster has one (id, name) entry per trainee row and no others. |
| Records.NullIfEmpty | src/components/admin/FeesManagement.tsx:73-75 | An empty text becomes null, and any other text is kept. |
| Records.EmptyIfNull | src/components/admin/FeesManagement.tsx:132-134 | Null becomes the empty text, and any other value is kept. |
| Records.NullRoundTrip | src/components/admin/FeesManagement.tsx:123-137 | Text to column and back is the identity. Column to text and back is the identity for every value except `""`. |
| Text.Trim | src/components/Login.tsx:25 | The result is trimmed: it neither starts nor ends with white space. |
| Text.TrimPadding | src/components/Login.tsx:25 | Adding white-space padding never changes the trimmed text. |
| Text.TrimIdempotent | src/components/Login.tsx:25 | Trimming twice is trimming once. |
| Text.ToUpper | src/components/Login.tsx:25 | ASCII upper-casing: the length is kept, each lower-case ASCII letter becomes the upper-case letter that lower-cases back to it, and every other character is unchanged (see "## Left out" for the rest of Unicode). |
| Text.ToLower | src/components/admin/StudentsOverview.tsx:150-151 | ASCII lower-casing: the length is kept, each upper-case ASCII letter becomes the lower-case letter that upper-cases back to it, and every other character is unchanged. |
| Text.LowerOfUpper | src/components/admin/StudentsOverview.tsx:150-151 | Lower-casing an upper-cased text gives the lower-casing of the original, under ASCII case mapping. |
| Text.UpperOfLower | src/components/Login.tsx:25 | Upper-casing undoes lower-casing on a text with no lower-case ASCII letters. |
| Text.UpperNeverMatchesLower | src/components/Login.tsx:25 | An upper-cased text never equals a text holding a lower-case letter. |
| Text.Includes | src/components/admin/StudentsOverview.tsx:150-151 | True exactly when the needle occurs in the text. |
| Text.StartsWith | src/components/dashboard/DashboardHome.tsx:60 | True exactly when the prefix occurs at position 0. |
| Text.ParseCommaList | src/components/admin/NotesManagement.tsx:62 | Every item is non-empty, trimmed and free of commas. |
| Text.ParseCommaListIsSplitTrimFilter | src/components/admin/NotesManagement.tsx:62 | The parser equals the literal chain: split at every comma, trim each piece, drop the empty ones. |
| Text.Split | src/components/admin/NotesManagement.tsx:62 | There is at least one piece and no piece holds the separator; `SplitJoin` proves that joining the pieces gives the input back. |
| Text.ParseConcat | src/components/admin/NotesManagement.tsx:62 | Parsing `a,b` is parsing `a` followed by parsing `b`. |
| Text.ParseSingle | src/components/admin/NotesManagement.tsx:62 | A comma-free text parses to its trimmed self, or to nothing when it is blank. |
| Text.DecimalRoundTrip | src/components/admin/AttendanceManagement.tsx:179 | The decimal digits written into a message read back as the same number. |
| Text.Decimal | src/components/admin/AttendanceManagement.tsx:179 | A template literal's `${n}` for a count: at least one character, every one a digit. `DecimalRoundTrip` proves it reads back as `n`. |
| Table.MaybeSingle | src/components/Login.tsx:22-28 | A single-row query errors on failure or on more than one match, reports absence exactly when no row matches, and otherwise returns the one matching row. |
| Table.Where | src/components/admin/AttendanceManagement.tsx:58-62 | The result holds exactly the elements satisfying the filter: each kept element is from the input and satisfies it, and each input element that satisfies it is kept. |
| Table.Count | src/components/admin/ProjectsManagement.tsx:129-133 | A count never exceeds the number of rows. |
| Table.Patch | src/components/dashboard/DashboardResume.tsx:43-47 | Same length; every selected element is rewritten and every other element is unchanged, in place. |
| Table.Insert | src/components/admin/NotesManagement.tsx:72-74 | An insert keeps the old rows as a prefix, appends the items in order, and gives them fresh increasing ids. |
| Table.InsertKeepsIdsUnique | src/components/admin/NotesManagement.tsx:72-74 | Inserting keeps row ids unique. |
| Table.UpdateById | src/components/admin/AttendanceManagement.tsx:88-94 | An update by id patches exactly the rows with that id and keeps every id. |
| Table.UpdateKeepsIdsUnique | src/components/admin/AttendanceManagement.tsx:88-94 | Updating keeps row ids unique. |
| Table.DeleteById | src/components/admin/AttendanceManagement.tsx:109-112 | A delete removes exactly the rows with that id: every remaining row is from the table and lacks the id, and every row lacking it remains. |
| Table.DeleteByIdKeepsOrder | src/components/admin/AttendanceManagement.tsx:109-112 | A delete works row by row and distributes over concatenation. So the surviving rows keep their order and their number. |
| Table.DeleteIdempotent | src/components/admin/AttendanceManagement.tsx:109-112 | Deleting the same id twice is deleting it once. |
| AttendanceManagement.Find | src/components/admin/AttendanceManagement.tsx:146-154 | The draft lookup finds a student's draft exactly when the sheet holds that student. |
| AttendanceManagement.Apply | src/components/admin/AttendanceManagement.tsx:149-152 | A definition: a status button sets the status and a remarks edit sets the remarks, each keeping the other part (`ChangeFind` states the effect on the sheet). |
| AttendanceManagement.Change | src/components/admin/AttendanceManagement.tsx:146-160 | A change adds at most one entry. A student already in the sheet is changed in place. A new student is placed where the object lists the key: an integer-like ID such as "1001" among the other integer-like IDs by value, ahead of every other key, and any other ID last. |
| AttendanceManagement.ChangeFind | src/components/admin/AttendanceManagement.tsx:146-154 | Changing one student's status or remarks updates only that draft, creating it empty first if absent. Every other student's draft is unchanged. |
| AttendanceManagement.ChangeKeys | src/components/admin/AttendanceManagement.tsx:146-160 | A student already present keeps their place. A new ID that is not integer-like goes last. A new integer-like ID goes right after the integer-like IDs smaller than it, ahead of every other key. |
| AttendanceManagement.ChangeKeepsObjectOrder | src/components/admin/AttendanceManagement.tsx:146-160 | Every change keeps the sheet in the order `Object.entries` lists an object's keys: the integer-like IDs first, in increasing numeric order. |
| AttendanceManagement.ObjectOrderExample | src/components/admin/AttendanceManagement.tsx:146-160 | Marking "S1" and then "1001" lists "1001" first. |
| AttendanceManagement.IndexSlot | src/components/admin/AttendanceManagement.tsx:146-160 | Where a new integer-like ID goes: after every key listed before it, and before the first key that is not. |
| AttendanceManagement.ChangeKeepsKeysUnique | src/components/admin/AttendanceManagement.tsx:146-154 | The draft sheet never holds a student twice. |
| AttendanceManagement.SelectedCount | src/components/admin/AttendanceManagement.tsx:303-305 | The "Selected" figure: the number of drafts with a status (a definition; `DraftRows` has exactly that many rows). |
| AttendanceManagement.SelectedCountZero | src/components/admin/AttendanceManagement.tsx:160-172 | The figure is at most the number of drafts. It is 0 exactly when no draft has a status, which is when saving is refused. |
| AttendanceManagement.DraftRows | src/components/admin/AttendanceManagement.tsx:160-167 | One row per student with a chosen status, all on the selected date, in the order `Object.entries` lists the sheet. As many rows as the "Selected" figure. |
| AttendanceManagement.DraftRow | src/components/admin/AttendanceManagement.tsx:163-167 | A definition: the row of one entry with a status, on the selected date, with remarks `|| ''` (`DraftRowsComplete` and `DraftRowsSound` state the rows). |
| AttendanceManagement.MarkedMessage | src/components/admin/AttendanceManagement.tsx:179 | A definition: the success text with the number of rows saved (`SaveNewAttendance` shows it with `SelectedCount`). |
| AttendanceManagement.DraftRowsComplete | src/components/admin/AttendanceManagement.tsx:160-167 | Every student with a chosen status gets a row. |
| AttendanceManagement.DraftRowsSound | src/components/admin/AttendanceManagement.tsx:160-167 | Every row comes from a student with a chosen status. |
| AttendanceManagement.DraftRowsOnePerStudent | src/components/admin/AttendanceManagement.tsx:160-167 | No student gets two rows in one save. |
| AttendanceManagement.MarkAllRows | src/components/admin/AttendanceManagement.tsx:126-132 | One present row with empty remarks per roster student, in roster order, on the selected date. |
| AttendanceManagement.RecordsOn | src/components/admin/AttendanceManagement.tsx:51-69 | The loaded records are exactly the table's rows of that date. |
| AttendanceManagement.MarkAllShowsEveryone | src/components/admin/AttendanceManagement.tsx:123-144 | After "mark all present", every roster student has a present row on that date. |
| AttendanceManagement.EditPatch | src/components/admin/AttendanceManagement.tsx:88-94 | The edit writes status and remarks only (a definition; `SaveEdit` states its effect on the table). |
| AttendanceManagement.AttendanceScreen.constructor | src/components/admin/AttendanceManagement.tsx:22-30 | Starts on today's date, with empty lists and forms. |
| AttendanceManagement.AttendanceScreen.LoadStudents | src/components/admin/AttendanceManagement.tsx:40-49 | The list becomes the trainee roster unless the query fails. |
| AttendanceManagement.AttendanceScreen.LoadAttendance | src/components/admin/AttendanceManagement.tsx:51-69 | The records become the rows on the selected date, or empty on failure. |
| AttendanceManagement.AttendanceScreen.SelectDate | src/components/admin/AttendanceManagement.tsx:210 | Switches the date and reloads that date's rows. |
| AttendanceManagement.AttendanceScreen.StartEdit | src/components/admin/AttendanceManagement.tsx:71-77 | Edits that record, with its status and with its remarks or the empty text. |
| AttendanceManagement.AttendanceScreen.CancelEdit | src/components/admin/AttendanceManagement.tsx:79-82 | Leaves edit mode with a blank form. |
| AttendanceManagement.AttendanceScreen.SetEditStatus | src/components/admin/AttendanceManagement.tsx:361-381 | Sets the edit status only. |
| AttendanceManagement.AttendanceScreen.SetEditRemarks | src/components/admin/AttendanceManagement.tsx:395 | Sets the edit remarks only. |
| AttendanceManagement.AttendanceScreen.SaveEdit | src/components/admin/AttendanceManagement.tsx:84-104 | On error the table is unchanged and the error message is set. On success the row with that id gets the new status and remarks, edit mode ends and the records reload. |
| AttendanceManagement.AttendanceScreen.DeleteRecord | src/components/admin/AttendanceManagement.tsx:106-121 | Without confirmation nothing changes. On error the table is kept and the message set. Otherwise the row is deleted and the records reload. |
| AttendanceManagement.AttendanceScreen.MarkAllPresent | src/components/admin/AttendanceManagement.tsx:123-144 | Without confirmation nothing changes. On error the table is kept. Otherwise it inserts `MarkAllRows` for the roster, shows the all-marked message and reloads the records. |
| AttendanceManagement.AttendanceScreen.HandleNewAttendanceChange | src/components/admin/AttendanceManagement.tsx:146-154 | The draft sheet becomes `Change(...)`. The drafts stay unique and stay in the object's key order. |
| AttendanceManagement.AttendanceScreen.ToggleMarkForm | src/components/admin/AttendanceManagement.tsx:195 | Flips the mark form. |
| AttendanceManagement.AttendanceScreen.SaveNewAttendance | src/components/admin/AttendanceManagement.tsx:156-187 | With no status chosen the table is unchanged and the error message is set. On error the table is unchanged. Otherwise it inserts `DraftRows`, reports how many were marked, clears the drafts and closes the form. |
| AttendanceManagement.AttendanceScreen.MessageTimerElapsed | src/components/admin/AttendanceManagement.tsx:183 | Clears the success message. |
| Selection.Without | src/components/admin/NotesManagement.tsx:38-39 | Removes exactly that id. |
| Selection.WithoutDistinct | src/components/admin/NotesManagement.tsx:38-39 | Removal keeps the list free of duplicates. |
| Selection.Toggle | src/components/admin/NotesManagement.tsx:36-42 | The id is selected afterwards exactly when it was not before, and every other id keeps its state. |
| Selection.ToggleDistinct | src/components/admin/NotesManagement.tsx:36-42 | Toggling keeps the list free of duplicates. |
| Selection.ToggleTwice | src/components/admin/NotesManagement.tsx:36-42 | Toggling twice restores the selected set. When the id was not selected, it restores the exact list. |
| Selection.Check | src/components/admin/TasksManagement.tsx:267-274 | Ticking a box selects the id and unticking deselects it. Every other id keeps its state. |
| Selection.CheckboxIsToggle | src/components/admin/TasksManagement.tsx:267-274 | A checkbox change is the toggle of that id. |
| Selection.AllIds | src/components/admin/NotesManagement.tsx:44-46 | "Select all" lists the roster's ids in order. |
| Selection.AllIdsSelectsRoster | src/components/admin/NotesManagement.tsx:44-46 | An id is selected by "select all" exactly when it is on the roster. |
| NotesManagement.NoteRows | src/components/admin/NotesManagement.tsx:62-70 | One note per selected student, in order, each with the form's title, content and date, and with the parsed tags. |
| NotesManagement.SentMessage | src/components/admin/NotesManagement.tsx:77 | A definition: the success text with the number of students (`HandleSubmit` shows it with the selection's size). |
| NotesManagement.NoteRowsOnePerStudent | src/components/admin/NotesManagement.tsx:64-70 | Each selected student gets exactly one note. |
| NotesManagement.TagsAreClean | src/components/admin/NotesManagement.tsx:62 | Every stored tag is non-empty, trimmed and free of commas. |
| NotesManagement.NotesScreen.constructor | src/components/admin/NotesManagement.tsx:11-21 | Starts with no selection and a blank form dated today. |
| NotesManagement.NotesScreen.LoadStudents | src/components/admin/NotesManagement.tsx:27-34 | The list becomes the trainee roster unless the query fails. |
| NotesManagement.NotesScreen.ToggleStudent | src/components/admin/NotesManagement.tsx:36-42 | Toggles one student and keeps the selection distinct. |
| NotesManagement.NotesScreen.SelectAll | src/components/admin/NotesManagement.tsx:44-46 | Selects every listed student. |
| NotesManagement.NotesScreen.ClearAll | src/components/admin/NotesManagement.tsx:48-50 | Empties the selection. |
| NotesManagement.NotesScreen.SetForm | src/components/admin/NotesManagement.tsx:194-229 | Replaces the form only. |
| NotesManagement.NotesScreen.SetShowForm | src/components/admin/NotesManagement.tsx:97 | Sets the form's visibility only. |
| NotesManagement.NotesScreen.HandleSubmit | src/components/admin/NotesManagement.tsx:52-90 | With nothing selected it inserts nothing and sets the error message. On error the table is unchanged. Otherwise it inserts `NoteRows`, reports the count and resets form and selection. |
| NotesManagement.NotesScreen.MessageTimerElapsed | src/components/admin/NotesManagement.tsx:86 | Clears the success message. |
| TasksManagement.NewTask | src/components/admin/TasksManagement.tsx:50-52 | A new task is pending, unsubmitted and ungraded, and carries the form's student, title, description and due date. |
| TasksManagement.AssignRows | src/components/admin/TasksManagement.tsx:82-87 | One new task per chosen student, in order. |
| TasksManagement.BulkReachesRoster | src/components/admin/TasksManagement.tsx:109-142 | A bulk assignment creates a task for a student exactly when the student is on the roster. |
| TasksManagement.ReassignRows | src/components/admin/TasksManagement.tsx:174-180 | Reassigning copies title, description and due date to each chosen student as a new pending task. |
| TasksManagement.ReassignIsFreshAssignment | src/components/admin/TasksManagement.tsx:166-194 | A reassignment equals a fresh assignment of the same title, description and due date. |
| TasksManagement.GradeChangesOnlyThatTask | src/components/admin/TasksManagement.tsx:144-164 | Grading writes grade, feedback and status into the graded task only, and keeps its submission. Every other row is unchanged. |
| TasksManagement.GradePatch | src/components/admin/TasksManagement.tsx:147-153 | The grading update writes grade, feedback and status only (a definition; `GradeChangesOnlyThatTask` states what it keeps). |
| TasksManagement.StatusCountsAddUp | src/components/admin/TasksManagement.tsx:196-223 | The pending, submitted and completed counters add up to the number of tasks. |
| TasksManagement.PendingCount | src/components/admin/TasksManagement.tsx:215 | The pending card counts at most every task (`StatusCountsAddUp` states that the three cards add up to the total). |
| TasksManagement.SubmittedCount | src/components/admin/TasksManagement.tsx:196-219 | The submitted card counts at most every task. |
| TasksManagement.CompletedCount | src/components/admin/TasksManagement.tsx:223 | The completed card counts at most every task. |
| TasksManagement.Filled | src/components/admin/TasksManagement.tsx:75 | A definition: the guard (repeated at line 110) that a title and a description were typed (the `AssignToMultipleStudents` and `AssignBulkTask` contracts state what it refuses). |
| TasksManagement.MultiAlert | src/components/admin/TasksManagement.tsx:69-107 | Every outcome of assigning to several students is reported by an alert except a cancelled confirmation. |
| TasksManagement.BulkAlert | src/components/admin/TasksManagement.tsx:109-142 | Bulk assignment reports every outcome except a cancelled confirmation; it never asks for a selection. |
| TasksManagement.ReassignAlert | src/components/admin/TasksManagement.tsx:166-194 | Reassignment reports every outcome except a cancelled confirmation; it never checks the title and description. |
| TasksManagement.AssignCounts | src/components/admin/TasksManagement.tsx:69-107 | Assigning to n students raises the pending counter by n and leaves the others unchanged. |
| TasksManagement.TasksScreen.constructor | src/components/admin/TasksManagement.tsx:6-23 | Starts with empty lists, closed forms and blank forms. |
| TasksManagement.TasksScreen.LoadStudents | src/components/admin/TasksManagement.tsx:30-37 | The list becomes the trainee roster unless the query fails. |
| TasksManagement.TasksScreen.LoadTasks | src/components/admin/TasksManagement.tsx:39-45 | The list becomes the table unless the query fails. |
| TasksManagement.TasksScreen.ToggleForm | src/components/admin/TasksManagement.tsx:204 | The "Assign Task" button flips the form flag and nothing else. |
| TasksManagement.TasksScreen.SetForm | src/components/admin/TasksManagement.tsx:246-313 | Replaces the form only. |
| TasksManagement.TasksScreen.SetSelected | src/components/admin/TasksManagement.tsx:267-274 | The selection follows `Check`. |
| TasksManagement.TasksScreen.CancelForm | src/components/admin/TasksManagement.tsx:336-339 | Closes the form and clears the selection. |
| TasksManagement.TasksScreen.HandleSubmit | src/components/admin/TasksManagement.tsx:47-67 | On error nothing is inserted. Otherwise it inserts one `NewTask` from the form, resets the form and reloads. |
| TasksManagement.TasksScreen.AssignToMultipleStudents | src/components/admin/TasksManagement.tsx:69-107 | The checks run in this order: no selection, then missing fields, then a declined confirmation. Each leaves the table unchanged. A confirmed assignment inserts `AssignRows(selected)` and reports the count, or reports the store's error with the table unchanged. |
| TasksManagement.TasksScreen.AssignBulkTask | src/components/admin/TasksManagement.tsx:109-142 | Missing fields, then a declined confirmation, leave the table unchanged. Otherwise it inserts `AssignRows` for the whole roster, clears form and selection and reloads, or it reports the store's error with the table unchanged. |
| TasksManagement.TasksScreen.OpenGradeForm | src/components/admin/TasksManagement.tsx:481 | Opens grading for that task. |
| TasksManagement.TasksScreen.SetGradeForm | src/components/admin/TasksManagement.tsx:369-379 | Replaces the grade form only. |
| TasksManagement.TasksScreen.CancelGrade | src/components/admin/TasksManagement.tsx:396-399 | Closes grading and resets the grade form. |
| TasksManagement.TasksScreen.HandleGradeSubmit | src/components/admin/TasksManagement.tsx:144-164 | On error the table is unchanged. Otherwise that task gets grade, feedback and status, grading closes and the list reloads. |
| TasksManagement.TasksScreen.OpenReassignForm | src/components/admin/TasksManagement.tsx:516 | Opens reassignment for that task. |
| TasksManagement.TasksScreen.SetReassignSelected | src/components/admin/TasksManagement.tsx:425-431 | The reassignment selection follows `Check`. |
| TasksManagement.TasksScreen.CancelReassign | src/components/admin/TasksManagement.tsx:452-455 | Closes reassignment and clears its selection. |
| TasksManagement.TasksScreen.HandleReassignTask | src/components/admin/TasksManagement.tsx:166-194 | No selection, then a declined confirmation, change nothing. Otherwise it inserts `ReassignRows` and reports the count, or reports the error with the table unchanged. |
| ProjectsManagement.ProjectRow | src/components/admin/ProjectsManagement.tsx:44-51 | The project row carries the form's fields and the parsed, trimmed, non-empty technologies, with no links. |
| ProjectsManagement.BulkRows | src/components/admin/ProjectsManagement.tsx:81-89 | One project per roster student, in order. |
| ProjectsManagement.BulkIsSingleForEach | src/components/admin/ProjectsManagement.tsx:71-111 | Each bulk row is the single-student row for that student. |
| ProjectsManagement.CountersBounded | src/components/admin/ProjectsManagement.tsx:129-133 | The in-progress, completed and submitted counts add up to the number of projects. |
| ProjectsManagement.InProgressCount | src/components/admin/ProjectsManagement.tsx:129 | The in-progress card counts at most every project (`CountersBounded` states that the counts add up). |
| ProjectsManagement.CompletedCount | src/components/admin/ProjectsManagement.tsx:133 | The completed card counts at most every project. |
| ProjectsManagement.Filled | src/components/admin/ProjectsManagement.tsx:72 | A definition: the guard that a project name and a description were typed (`AssignBulkProject` states what it refuses). |
| ProjectsManagement.BulkAlert | src/components/admin/ProjectsManagement.tsx:71-111 | Bulk assignment reports every outcome by an alert except a cancelled confirmation. |
| ProjectsManagement.BulkCounts | src/components/admin/ProjectsManagement.tsx:71-111 | A bulk assignment raises the counter of the form's status by the roster size. |
| ProjectsManagement.ProjectsScreen.constructor | src/components/admin/ProjectsManagement.tsx:6-17 | Starts with empty lists and the blank in-progress form. |
| ProjectsManagement.ProjectsScreen.LoadStudents | src/components/admin/ProjectsManagement.tsx:24-31 | The list becomes the trainee roster unless the query fails. |
| ProjectsManagement.ProjectsScreen.LoadProjects | src/components/admin/ProjectsManagement.tsx:33-39 | The list becomes the table unless the query fails. |
| ProjectsManagement.ProjectsScreen.SetForm | src/components/admin/ProjectsManagement.tsx:155-227 | Replaces the form only. |
| ProjectsManagement.ProjectsScreen.SetShowForm | src/components/admin/ProjectsManagement.tsx:118 | Sets the form's visibility only. |
| ProjectsManagement.ProjectsScreen.HandleSubmit | src/components/admin/ProjectsManagement.tsx:41-69 | On error the table is unchanged. Otherwise it inserts `ProjectRow(form)`, resets the form and reloads. |
| ProjectsManagement.ProjectsScreen.AssignBulkProject | src/components/admin/ProjectsManagement.tsx:71-111 | Missing fields, then a declined confirmation, change nothing. Otherwise it inserts `BulkRows` for the roster, resets the form and reloads, or it reports the store's error with the table unchanged. |
| FeesManagement.AmountText | src/components/admin/FeesManagement.tsx:128-131 | Every amount, negative or with decimals, is written as a text the amount box accepts and reads back as the same amount. A decimal part never ends in 0, as with `toString`. |
| FeesManagement.AmountValue | src/components/admin/FeesManagement.tsx:69-72 | `parseFloat` of an amount box, in paise; `DecimalAmountExample` and `NegativeAmountExample` show "1500.50" read as 150050 and "-100" as -10000. |
| FeesManagement.UnsignedRoundTrip | src/components/admin/FeesManagement.tsx:128-131 | Writing a non-negative amount out and reading it back gives the same amount. |
| FeesManagement.DecimalAmountExample | src/components/admin/FeesManagement.tsx:69 | "1500.50" is read as 150050 paise. |
| FeesManagement.NegativeAmountExample | src/components/admin/FeesManagement.tsx:69 | "-100" is read as -10000 paise, since the box sets no minimum. |
| FeesManagement.AmountTextExample | src/components/admin/FeesManagement.tsx:128 | 150050 paise is written back as "1500.5", without the trailing zero. |
| FeesManagement.FeeRow | src/components/admin/FeesManagement.tsx:66-77 | Student, fee type, due date and status are carried over. Both amounts are their boxes' values in paise. The paid date is set, to today, exactly when the status is paid. An empty method, transaction id or remark is stored as null, and any other text is stored as typed. |
| FeesManagement.FormOf | src/components/admin/FeesManagement.tsx:123-137 | Editing a fee loads its student, fee type, due date and status into the form. Each amount is loaded as a text the box accepts and reads back as the same amount. |
| FeesManagement.EditSaveRoundTrip | src/components/admin/FeesManagement.tsx:66-77 | Opening a fee for editing and saving it unchanged yields the same fee, whatever its amounts (negative and decimal ones included), provided its payment method, transaction id and remarks are not `Some("")`: `|| null` turns an empty text into null. Only the paid date is recomputed from the status and today. |
| FeesManagement.NameOf | src/components/admin/FeesManagement.tsx:46-49 | The joined name is absent exactly when no student has the fee's id, and otherwise it is a name of such a student. |
| FeesManagement.Listings | src/components/admin/FeesManagement.tsx:43-52 | One listing per fee row, in order. |
| FeesManagement.FilteredFees | src/components/admin/FeesManagement.tsx:155-160 | Shows exactly the fees whose id or joined name contains the lower-cased term and whose status passes the filter. |
| FeesManagement.Shown | src/components/admin/FeesManagement.tsx:155-160 | The filter predicate of the listing (a definition; `FilteredFees` ties it to `SearchHit` and `StatusHit`). |
| FeesManagement.SearchHit | src/components/admin/FeesManagement.tsx:156-157 | The lower-cased term occurs in the lower-cased student ID or in the joined name (a definition). |
| FeesManagement.StatusHit | src/components/admin/FeesManagement.tsx:158 | The filter is "all" or equals the fee's status (a definition). |
| FeesManagement.NoFilterShowsAll | src/components/admin/FeesManagement.tsx:155-160 | An empty term with "all" shows every fee. |
| FeesManagement.OnlyListsThatStatus | src/components/admin/FeesManagement.tsx:158 | A status filter shows only fees of that status. |
| FeesManagement.FeesScreen.constructor | src/components/admin/FeesManagement.tsx:20-36 | Starts with empty lists, the "all" filter and the default form. |
| FeesManagement.FeesScreen.LoadFees | src/components/admin/FeesManagement.tsx:43-52 | The list becomes the joined listings unless the query fails. |
| FeesManagement.FeesScreen.LoadStudents | src/components/admin/FeesManagement.tsx:54-61 | The list becomes the trainee roster unless the query fails. |
| FeesManagement.FeesScreen.SetSearchTerm | src/components/admin/FeesManagement.tsx:192 | Sets the search term only. |
| FeesManagement.FeesScreen.SetStatusFilter | src/components/admin/FeesManagement.tsx:200 | Sets the status filter only. |
| FeesManagement.FeesScreen.SetForm | src/components/admin/FeesManagement.tsx:221-329 | Replaces the form only. |
| FeesManagement.FeesScreen.ToggleForm | src/components/admin/FeesManagement.tsx:177 | Flips the form's visibility. |
| FeesManagement.FeesScreen.ResetForm | src/components/admin/FeesManagement.tsx:107-121 | Restores the default form, stops editing and hides the form. |
| FeesManagement.FeesScreen.EditFee | src/components/admin/FeesManagement.tsx:123-137 | Edits that fee with `FormOf` and shows the form. |
| FeesManagement.FeesScreen.HandleSubmit | src/components/admin/FeesManagement.tsx:63-105 | When editing, it updates that row with `FeeRow`, and otherwise it inserts `FeeRow`. On error the table is unchanged and the error alert names the operation. On success it alerts, resets the form and reloads. |
| FeesManagement.FeesScreen.DeleteFee | src/components/admin/FeesManagement.tsx:139-153 | Without confirmation nothing changes. On error the table is kept. Otherwise that row is deleted and the list reloads. |
| DashboardHome.OrZero | src/components/dashboard/DashboardHome.tsx:37-39 | A missing score shows 0, and a present score shows itself. |
| DashboardHome.RatingText | src/components/dashboard/DashboardHome.tsx:40 | A missing or empty rating shows "Not Evaluated", and any other rating shows itself. |
| DashboardHome.CountOr0 | src/components/dashboard/DashboardHome.tsx:41-42 | A failed query counts 0. Otherwise the result counts the matching rows and is at most the row count. |
| DashboardHome.DeriveStats | src/components/dashboard/DashboardHome.tsx:35-43 | The pending card is the number of pending tasks and the completed card the number of completed projects, each 0 when its query failed. Attendance, project score and test score are the stored values, or 0 when missing. The rating shows "Not Evaluated" exactly when none is stored or it is that text. |
| DashboardHome.UnevaluatedDefaults | src/components/dashboard/DashboardHome.tsx:35-43 | A student without scores sees zeros and "Not Evaluated". |
| DashboardHome.PendingCardCountsPending | src/components/dashboard/DashboardHome.tsx:41 | The pending-tasks card counts the pending tasks, and shows 0 when none is pending. |
| DashboardHome.CompletedCardCountsCompleted | src/components/dashboard/DashboardHome.tsx:42 | The completed-projects card and the count of unfinished projects add up to the number of projects; the card shows 0 when none is completed. |
| DashboardHome.CheckPhoto | src/components/dashboard/DashboardHome.tsx:52-63 | A photo is accepted exactly when a file is given, at most 2 MiB, with an `image/` type. It is too large exactly when a file is over 2 MiB. |
| DashboardHome.CheckAlert | src/components/dashboard/DashboardHome.tsx:52-63 | An alert is shown exactly when the file is rejected, as too large or as not an image; no file and an accepted file show none. |
| DashboardHome.PhotoWriteOnlyTouchesStudent | src/components/dashboard/DashboardHome.tsx:71-74 | The photo write changes the photo of that student's rows only. |
| DashboardHome.HomeTab.constructor | src/components/dashboard/DashboardHome.tsx:11-21 | Starts with the "Loading..." stats, no photo and no message. |
| DashboardHome.HomeTab.LoadDashboardData | src/components/dashboard/DashboardHome.tsx:27-49 | When the student's row is found, the stats become `DeriveStats` and the photo becomes the stored one or empty. Otherwise nothing changes. |
| DashboardHome.HomeTab.HandlePhotoUpload | src/components/dashboard/DashboardHome.tsx:51-88 | A rejected file alerts and writes nothing. An accepted file is written, and the handler ends not uploading. On error it alerts, and on success it shows the photo and the message. |
| DashboardHome.HomeTab.MessageTimerElapsed | src/components/dashboard/DashboardHome.tsx:81 | Clears the success message. |
| DashboardFees.TotalPending | src/components/dashboard/DashboardFees.tsx:51-53 | The pending total is the sum of the per-fee balances. |
| DashboardFees.TotalAmount | src/components/dashboard/DashboardFees.tsx:51 | With no negative amount, the total is not negative. |
| DashboardFees.TotalPaid | src/components/dashboard/DashboardFees.tsx:52 | With no negative paid amount, the total paid is not negative. |
| DashboardFees.Balance | src/components/dashboard/DashboardFees.tsx:134 | A row's balance, amount minus paid (a definition; `BalancesBounds` and `PendingIsSumOfBalances` state its properties). |
| DashboardFees.TotalBalance | src/components/dashboard/DashboardFees.tsx:134 | A reference definition: the sum of the balance column. `TotalPending` and `PendingIsSumOfBalances` prove the pending card equal to it. |
| DashboardFees.PendingIsSumOfBalances | src/components/dashboard/DashboardFees.tsx:51-53 | Total amount minus total paid equals the sum of the balances shown per fee. |
| DashboardFees.TotalsAppend | src/components/dashboard/DashboardFees.tsx:51-52 | Both totals add over concatenation. |
| DashboardFees.PendingBounds | src/components/dashboard/DashboardFees.tsx:53 | When no fee is overpaid the pending total is not negative, and when all are fully paid it is 0. |
| DashboardFees.BalancesBounds | src/components/dashboard/DashboardFees.tsx:134 | When no fee is overpaid the sum of balances is not negative, and when all are fully paid it is 0. |
| DashboardFees.LoadFees | src/components/dashboard/DashboardFees.tsx:29-39 | Loading always ends. A failed query keeps the list. Otherwise the list holds exactly that student's fees. |
| DashboardFees.StorageKeyNeverSetKeepsLoading | src/components/dashboard/DashboardFees.tsx:19-27 | With no stored student id, the tab stays loading with no fees. |
| DashboardFees.MountFromStorage | src/components/dashboard/DashboardFees.tsx:19-27 | The tab stays loading exactly when storage holds no non-empty student id. |
| DashboardFees.Mount | src/components/dashboard/DashboardFees.tsx:23-39 | Given the dashboard's student id, loading ends. |
| DashboardFees.MountShowsOwnFees | src/components/dashboard/DashboardFees.tsx:23-39 | Given the student id, the tab shows exactly that student's fees. |
| DashboardTasks.SubmitClosesTask | src/components/dashboard/DashboardTasks.tsx:27-40 | After submitting, the task is no longer open for submission, and it carries the link, the notes and the time. |
| DashboardTasks.SubmitDecrementsPending | src/components/dashboard/DashboardTasks.tsx:27-51 | Submitting a pending task lowers the pending count by exactly one. |
| DashboardTasks.PendingCount | src/components/dashboard/DashboardTasks.tsx:48 | The pending counter counts at most every task (`SubmitDecrementsPending` states how a submission moves it). |
| DashboardTasks.CompletedCount | src/components/dashboard/DashboardTasks.tsx:51 | The completed counter counts at most every task. |
| DashboardTasks.CanSubmit | src/components/dashboard/DashboardTasks.tsx:117-119 | The Submit button is offered on pending tasks only (a definition). |
| DashboardTasks.SubmitPatch | src/components/dashboard/DashboardTasks.tsx:27-40 | The submission writes link, notes, `submitted` and the time (a definition; `SubmitClosesTask` states what it keeps). |
| DashboardTasks.TasksTab.constructor | src/components/dashboard/DashboardTasks.tsx:10-12 | Starts with no tasks, no selection and a blank submission. |
| DashboardTasks.TasksTab.LoadTasks | src/components/dashboard/DashboardTasks.tsx:18-25 | The list becomes this student's tasks unless the query fails. |
| DashboardTasks.TasksTab.OpenSubmit | src/components/dashboard/DashboardTasks.tsx:117-119 | Only a pending task can be opened, and it becomes the selection. |
| DashboardTasks.TasksTab.SetSubmission | src/components/dashboard/DashboardTasks.tsx:63-70 | Replaces the submission form only. |
| DashboardTasks.TasksTab.Cancel | src/components/dashboard/DashboardTasks.tsx:79 | Clears the selection. |
| DashboardTasks.TasksTab.HandleSubmit | src/components/dashboard/DashboardTasks.tsx:27-40 | Patches the selected task unless the write fails, always closes and resets the form, and reloads this student's tasks. |
| DashboardProjects.SubmitClosesProject | src/components/dashboard/DashboardProjects.tsx:30-44 | After submitting, the project is no longer open for links, and it carries the links, the submitted status and the end date. |
| DashboardProjects.SubmitTouchesOneProject | src/components/dashboard/DashboardProjects.tsx:30-44 | Submitting removes exactly one project from the open ones and changes no other row. |
| DashboardProjects.CanSubmitLinks | src/components/dashboard/DashboardProjects.tsx:114-137 | "Submit Links" is offered when the project has no link and is in progress (a definition). |
| DashboardProjects.SubmitPatch | src/components/dashboard/DashboardProjects.tsx:30-44 | The submission writes both links, `submitted` and the end date (a definition; `SubmitClosesProject` states what it keeps). |
| DashboardProjects.ProjectsTab.constructor | src/components/dashboard/DashboardProjects.tsx:10-12 | Starts with no projects, no selection and blank links. |
| DashboardProjects.ProjectsTab.LoadProjects | src/components/dashboard/DashboardProjects.tsx:21-28 | The list becomes this student's projects unless the query fails. |
| DashboardProjects.ProjectsTab.OpenSubmit | src/components/dashboard/DashboardProjects.tsx:114-137 | Only an in-progress project with no link can be opened, and the links form starts blank. |
| DashboardProjects.ProjectsTab.SetLinks | src/components/dashboard/DashboardProjects.tsx:68-76 | Replaces the links form only. |
| DashboardProjects.ProjectsTab.Cancel | src/components/dashboard/DashboardProjects.tsx:84 | Clears the selection. |
| DashboardProjects.ProjectsTab.HandleSubmit | src/components/dashboard/DashboardProjects.tsx:30-44 | Patches the selected project unless the write fails, always closes and resets, and reloads this student's projects. |
| DashboardResume.AddSkill | src/components/dashboard/DashboardResume.tsx:55-63 | A blank input changes nothing, and the input is kept. Any other input appends its trimmed, non-empty text and clears the input. |
| DashboardResume.RemoveAt | src/components/dashboard/DashboardResume.tsx:65-70 | A valid index removes exactly that skill and keeps the order of the rest. An out-of-range index changes nothing. |
| DashboardResume.RemoveLastAdded | src/components/dashboard/DashboardResume.tsx:55-70 | Removing the skill just added restores the previous list. |
| DashboardResume.RemoveThenReinsert | src/components/dashboard/DashboardResume.tsx:65-70 | Putting a removed skill back at its index restores the list. |
| DashboardResume.Loaded | src/components/dashboard/DashboardResume.tsx:20-33 | A found resume loads its personal info and skills, with defaults for missing parts. Otherwise the editor keeps its data. |
| DashboardResume.Save | src/components/dashboard/DashboardResume.tsx:35-53 | A failed write leaves the table unchanged. A save adds at most one row, and no row of another student changes. |
| DashboardResume.SaveLeavesOneRow | src/components/dashboard/DashboardResume.tsx:35-53 | With at most one row per student, a save leaves exactly one row, holding the data, and no other student's row changes. |
| DashboardResume.FailedLookupDuplicates | src/components/dashboard/DashboardResume.tsx:35-53 | When the existence check fails on a student who has a resume, the save inserts a second row. |
| DashboardResume.ResumeEditor.constructor | src/components/dashboard/DashboardResume.tsx:10-14 | Starts with the blank resume and an empty skill input. |
| DashboardResume.ResumeEditor.LoadResume | src/components/dashboard/DashboardResume.tsx:20-33 | The data becomes `Loaded(...)`. |
| DashboardResume.ResumeEditor.SetInfo | src/components/dashboard/DashboardResume.tsx:101-145 | Replaces the personal info only. |
| DashboardResume.ResumeEditor.SetSkillInput | src/components/dashboard/DashboardResume.tsx:160 | Sets the skill input only. |
| DashboardResume.ResumeEditor.AddSkillClicked | src/components/dashboard/DashboardResume.tsx:55-63 | Follows `AddSkill`: a blank input leaves everything unchanged, and any other input is appended trimmed and cleared. |
| DashboardResume.ResumeEditor.RemoveSkill | src/components/dashboard/DashboardResume.tsx:180 | Removes the skill at that index. |
| DashboardResume.ResumeEditor.HandleSave | src/components/dashboard/DashboardResume.tsx:35-53 | The table becomes `Save(...)`, and the alert always reports success. |

## Left out

- Rendering, styling, icons and navigation between tabs are not modelled. Neither are the
  context components (navbar, hero, footer, mentors, contact and callback modals).
- Network, clocks and the browser are parameters. A query's result is the table passed in,
  and a store error is an `Option<string>` or a flag. Today's date and the current time are
  opaque strings.
- `setTimeout` delays are separate timer methods. The 1.5 s, 2 s and 3 s values are not
  modelled.
- `FileReader` is not modelled: the photo's data URL is a parameter of `HandlePhotoUpload`.
- Ordering clauses (`.order(...)`) are not modelled. Loaded lists keep table order, and the
  row-level filters are stated as sets of rows. Detail lists are limited by position.
- `created_at` and `updated_at` columns, and the store's column defaults, are not modelled.
  One exception: inserted task rows carry no status in the source, and the model assumes the
  store's default, pending.
- Floating-point arithmetic is not modelled. Fee amounts are exact integers in paise
  (hundredths of a rupee), and grades are `real`. Doubles lose precision to the paise above
  2^53, and `toString` switches to exponent notation from 1e21. Neither is modelled.
- Percent.Percentage: rounds the exact fraction half up, where the source rounds a double.
  The two differ when the double product falls just below a half: for 23 of 40,
  `(23 / 40) * 100` is 57.49999999999999 in doubles, so the source shows 57 and the model
  58. Ten part/whole pairs with a whole of at most 300 differ this way.
- FeesManagement.FeeRow: requires both amount boxes to hold text the browser submits for a
  `type="number" step="0.01"` box: an optional minus sign, digits, and at most two
  significant decimals. Three cases are not modelled. An empty paid-amount box (it is not
  `required`) makes `parseFloat` return NaN, which the request sends as null. Exponent
  notation such as "1e3" is valid number-box text but is not modelled. Neither is a step
  mismatch, which the browser refuses before the handler runs.
- FeesManagement.FeesScreen.HandleSubmit: has the same amount-text precondition as `FeeRow`,
  for the same reasons.
- Text.ToUpper / Text.ToLower: map the ASCII letters only. JavaScript's `toUpperCase` and
  `toLowerCase` follow Unicode: 'é' becomes 'É', and 'ß' becomes "SS", which changes the
  length. Full Unicode case mapping is not modelled. The members below depend on these two
  functions and hold only under ASCII case mapping.
- LookupKey (StudentLogin.LookupKey): does not model Unicode case mapping. With a stored ID "ÉCOLE1", the source
  logs in with "école1", but the model's key keeps 'é'. The claims "length kept" and
  "every other character unchanged" hold for ASCII letters only.
- SearchIgnoresTermCase (StudentsOverview.SearchIgnoresTermCase): holds only under ASCII case mapping. In JavaScript, "ß" matches
  the name "Strauß", but its upper-cased form "SS" lower-cases to "ss", which does not.
- LowerOfUpper (Text.LowerOfUpper): holds only under ASCII case mapping, for the same reason.
- UpperNeverMatchesLower, LowercaseIdNeverLogsIn and AddedLowercaseIdCannotLogIn speak of
  ASCII lower-case letters only.
- TasksManagement.TasksScreen.HandleGradeSubmit: requires a grade to be present. The grade
  box is `required`, with `min` 0, `max` 100 and `step` 0.01, so the browser blocks an empty
  or out-of-range grade before the handler runs.
- FeesManagement.Listings: joins each fee with the first student row of that id. The store's
  embedded join is not modelled.
- StudentsOverview.Overview.ToggleStudentExpanded: for a student ID that an object inherits
  from `Object.prototype` ("constructor", "toString", "__proto__" and the like), the details
  are never loaded, as in the source. The source then crashes while rendering, reading
  `attendanceStats` of a function. Rendering is not modelled, so the model states only the
  skipped load.
- StudentsOverview.Overview.HandleAddStudent: requires the fields marked `required` in the
  form to be filled, since the browser blocks the submit otherwise.
- Registration.RegistrationForm.HandleSubmit: requires the form's `required` fields and
  mobile pattern to hold, for the same reason.
- DashboardHome.HomeTab.LoadDashboardData: takes the task and project query results as
  parameters, with `None` for a failed query.
- DashboardTasks, DashboardProjects and DashboardResume ignore the write error in the
  source. The model takes it as a flag that leaves the table unchanged, and it shows no
  message, as in the source.
- The student-side notes tab and the student dashboard shell are not modelled. They only
  display rows and switch tabs.
- Concurrency between two open screens is not modelled. Each handler runs to completion on
  the table it is given.

## Findings

| source | as written | input that shows it | evidently intended | confidence | as-written member | corrected member |
|---|---|---|---|---|---|---|
| src/components/dashboard/DashboardFees.tsx:21 | The fees tab reads the student id from `localStorage.getItem('studentId')`. No file of the application writes that key, and `StudentDashboard.tsx:44` renders the tab without props. So `loadFees` never runs, `loading` stays true, and the tab shows "Loading fees..." forever. | Any logged-in student opening the Fees tab, with storage lacking `studentId`. | The tab takes the dashboard's `studentId`, as the attendance, tasks and resume tabs do, and loads that student's fees. | not executed | DashboardFees.StorageKeyNeverSetKeepsLoading | DashboardFees.MountShowsOwnFees |
