# Immigration CRM front end — a Dafny model

This project models the logic of the immigration CRM's browser front end:
- the utility library (case numbers, phone normalisation, day arithmetic, next business day, colour tables, filename sanitising, truncation, tokens);
- the query logic of the list pages for leads, cases, documents, appointments, communications and the activity log: search, filters, counts, badges, and the leads page's sort and CSV export;
- the client-side session kept in `localStorage`: the login form, the `useAuth` hook, the dashboard layout's guard, title and navigation;
- the new-lead and automation-settings form state.

Pure code is written as functions with lemmas. React state and the browser's store are classes whose methods change their fields.

Layout, one module per file:
- `text.dfy` (`Text`): the JavaScript string operations the pages use: `toLowerCase`, `includes`, `split`, `join`, `${n}`, `<` on strings, and `record[key] || fallback`.
- `seqs.dfy` (`Seqs`): `filter`, `filter(...).length` and `sort` on sequences.
- `wrappers.dfy` (`Wrappers`): `Option`.
- `palette.dfy` (`Palette`): the colour families of badges and icons.
- `helpers.dfy` (`Helpers`): `src/lib/utils/helpers.ts`.
- The pages:
  - `leads.dfy` (`LeadsPage`)
  - `cases.dfy` (`CasesPage`)
  - `documents.dfy` (`DocumentsPage`)
  - `appointments.dfy` (`AppointmentsPage`)
  - `communications.dfy` (`CommunicationsPage`)
  - `activity.dfy` (`ActivityPage`)
- `session.dfy` (`Session`): `localStorage` and the four session keys.
- `layout.dfy` (`DashboardLayout`), `login.dfy` (`AuthForm`), `useauth.dfy` (`UseAuth`).
- `newlead.dfy` (`NewLeadForm`), `automation.dfy` (`AutomationSettings`).

Conventions:
- **Time.** Times are integers: milliseconds since the epoch for `Date.now()` values, and day numbers (day 0 is Thursday 1 January 1970) for calendar days. The current time, `Math.random` draws and `prompt` answers are parameters.
- **Letter case.** Upper- and lower-casing is ASCII only.
- **Navigation.** A `router.push` target is recorded in a `navigatedTo` field.
- **`isValidEmail`.** `isValidEmail` in `src/lib/utils/helpers.ts:123-126` is the same regular expression as the login form's, so `AuthForm.IsValidEmail` models both.

## Model

| member | source | states |
|---|---|---|
| Helpers.CaseSuffix | src/lib/utils/helpers.ts:11 | the random suffix `floor(10000 + x*90000)` for x in [0,1) lies in [10000, 99999] |
| Helpers.GenerateCaseNumber | src/lib/utils/helpers.ts:9-13 | the number starts with "IMM-", the year and "-", and ends in exactly five digits that read back as the suffix |
| Helpers.CaseNumberFormat | src/lib/utils/helpers.ts:9-13 | for a four-digit year the number has the shape IMM-dddd-ddddd and both of its fields read back |
| Helpers.StripNonDigits | src/lib/utils/helpers.ts:20 | `replace(/\D/g, '')` leaves only digits and never lengthens the text |
| Helpers.FormatPhoneNumber | src/lib/utils/helpers.ts:18-37 | the result always starts with '+' |
| Helpers.FormatPhoneNumberDigits | src/lib/utils/helpers.ts:22-36 | the digits of the result are "1" and the input's digits when there are 10 of them, and the input's digits otherwise |
| Helpers.FormatPhoneNumberShape | src/lib/utils/helpers.ts:22-36 | 10 digits give "+1"+digits; 11 digits starting with 1 give "+"+digits; any other '+'-prefixed input is returned unchanged; otherwise "+"+digits |
| Helpers.FormatPhoneNumberTenDigitsWithPlus | src/lib/utils/helpers.ts:22-25 | a '+' followed by ten digits still gets "+1" put in front of the digits |
| Helpers.FormatPhoneNumberIdempotent | src/lib/utils/helpers.ts:18-37 | formatting a formatted number changes nothing |
| Helpers.DaysBetween | src/lib/utils/helpers.ts:42-45 | the day count is within half a day of the absolute millisecond difference divided by a day |
| Helpers.DaysBetweenIsRound | src/lib/utils/helpers.ts:43-44 | the day count equals `Math.round(|t1 - t2| / 86400000)` |
| Helpers.DaysBetweenSymmetric | src/lib/utils/helpers.ts:42-45 | the count does not depend on the argument order and is 0 for equal instants |
| Helpers.CalculateProcessingTime | src/lib/utils/helpers.ts:139-149 | days come from `daysBetween`; weeks*7 ≤ days < weeks*7+7 and months*30 ≤ days < months*30+30 |
| Helpers.GetStatusColor | src/lib/utils/helpers.ts:59-75 | the colour is one of the table's colours or gray |
| Helpers.StatusColorClasses | src/lib/utils/helpers.ts:59-75 | finished and unlisted statuses are gray, the two attention statuses red, every other listed status not gray |
| Helpers.GetPriorityColor | src/lib/utils/helpers.ts:80-88 | the colour is one of gray, blue, orange or red |
| Helpers.PriorityColorClasses | src/lib/utils/helpers.ts:80-88 | red exactly for URGENT, orange exactly for HIGH, gray exactly for LOW and unlisted priorities |
| Helpers.SanitizeFilename | src/lib/utils/helpers.ts:104-106 | the length is kept |
| Helpers.SanitizeFilenameAt | src/lib/utils/helpers.ts:105 | each character is kept when it is in [A-Za-z0-9.-] and becomes '_' otherwise |
| Helpers.SanitizeFilenameSafe | src/lib/utils/helpers.ts:104-106 | every output character is in [A-Za-z0-9._-]; a name made only of such characters is unchanged |
| Helpers.SanitizeFilenameIdempotent | src/lib/utils/helpers.ts:104-106 | sanitising twice equals sanitising once |
| Helpers.TruncateText | src/lib/utils/helpers.ts:179-182 | text within the limit is returned as is; longer text becomes its first maxLength characters and "...", of length maxLength+3 |
| Helpers.WeekdayNext | src/lib/utils/helpers.ts:157-160 | the weekday of the next day is the next weekday |
| Helpers.NoThreeWeekendDays | src/lib/utils/helpers.ts:159-161 | no three consecutive days are all weekend days, so the loop stops within three steps |
| Helpers.GetNextBusinessDay | src/lib/utils/helpers.ts:154-164 | the result is later than the day, at most three days later, not a Saturday or Sunday, and every day skipped is a weekend day |
| Helpers.TokenIndex | src/lib/utils/helpers.ts:115 | `floor(random * 62)` is a valid index of the alphabet |
| Helpers.GenerateToken | src/lib/utils/helpers.ts:111-118 | the token has `length` characters (none for a negative length); character i is the alphabet's character at the i-th draw's index |
| LeadsPage.FilteredLeads | src/app/dashboard/leads/page.tsx:67-78 | the shown list is never longer than the list |
| LeadsPage.FilteredLeadsUnfiltered | src/app/dashboard/leads/page.tsx:67-78 | with an empty search and both selects on 'all' every lead is shown |
| LeadsPage.FilteredLeadsSound | src/app/dashboard/leads/page.tsx:74-77 | the shown leads are exactly the matching leads, in their order; each has the selected status and priority unless the select is 'all' |
| LeadsPage.SearchFindsNameInAnyCase | src/app/dashboard/leads/page.tsx:68-69 | a term equal to the first name up to letter case finds the lead |
| LeadsPage.SearchPhoneIsCaseSensitive | src/app/dashboard/leads/page.tsx:68-72 | when no name or email contains the term, the lead matches exactly when the phone contains the term as typed |
| LeadsPage.SearchWithoutEmail | src/app/dashboard/leads/page.tsx:71 | a lead with no email or an empty one is matched only through its names or phone |
| LeadsPage.ClickSort | src/app/dashboard/leads/page.tsx:80-87 | clicking the current column flips the direction; clicking another selects it ascending |
| LeadsPage.ClickSortTwice | src/app/dashboard/leads/page.tsx:80-87 | two clicks on the current column restore the state; two on another leave it descending by that column |
| LeadsPage.SortIcon | src/app/dashboard/leads/page.tsx:89-92 | no arrow unless the column is the sort column; the up arrow exactly for ascending, the down arrow for descending |
| LeadsPage.GreaterAsymmetric | src/app/dashboard/leads/page.tsx:104-106 | `a > b` and `b > a` never hold together for values of one column |
| LeadsPage.CompareValuesCases | src/app/dashboard/leads/page.tsx:94-108 | two nulls tie; a null goes after a value in both directions; ascending gives 1 iff a > b and desc 1 iff a < b, else -1, so equal values give -1 |
| LeadsPage.CompareByOrdered | src/app/dashboard/leads/page.tsx:94-108 | a non-positive comparison puts a null only before another null, and otherwise orders the values in the chosen direction |
| LeadsPage.CompareLeadsTotal | src/app/dashboard/leads/page.tsx:94-108 | the comparator never puts each of two leads after the other |
| LeadsPage.SortedLeads | src/app/dashboard/leads/page.tsx:94 | the sorted list is a permutation of the filtered list |
| LeadsPage.SortedLeadsOrdered | src/app/dashboard/leads/page.tsx:94-108 | neighbouring rows are in column order for the direction, and after the first lead with no value every lead has no value |
| LeadsPage.AbsentStaysAbsent | src/app/dashboard/leads/page.tsx:98-100 | in a list sorted by the comparator, every row after a null row is null |
| LeadsPage.CsvCells | src/app/dashboard/leads/page.tsx:113-121 | a lead's line has one cell per header column |
| LeadsPage.CsvLines | src/app/dashboard/leads/page.tsx:111-122 | the file has the header line and one line per sorted lead |
| LeadsPage.CsvLinesFree | src/app/dashboard/leads/page.tsx:111-122 | when no cell holds a newline, no line does |
| LeadsPage.ExportCsvLines | src/app/dashboard/leads/page.tsx:111-122 | with no newline in a cell, splitting the file at newlines gives the header, which splits back into its 7 names, and the leads' comma-joined lines in order |
| LeadsPage.ExportCsvCells | src/app/dashboard/leads/page.tsx:113-121 | with no newline or comma in a cell, each lead's line splits back into its seven cells, a missing email as '' |
| LeadsPage.ExportCsvUnescaped | src/app/dashboard/leads/page.tsx:121 | cells are not quoted: a comma inside a first name gives a line of eight cells |
| LeadsPage.LeadsView.constructor | src/app/dashboard/leads/page.tsx:59-63 | the page starts with an empty search, both selects on 'all' and sorting by creation time descending |
| LeadsPage.LeadsView.HandleSort | src/app/dashboard/leads/page.tsx:80-87 | the sort state becomes the clicked state and the query is unchanged |
| CasesPage.FilteredCases | immigration-app/src/app/dashboard/cases/page.tsx:200 | the shown count is at most the total |
| CasesPage.FilteredCasesSound | immigration-app/src/app/dashboard/cases/page.tsx:59-69 | the shown cases are exactly the matching ones, in order; no search and 'all' keep every case |
| CasesPage.SearchFindsCaseNumber | immigration-app/src/app/dashboard/cases/page.tsx:61 | the case number in any letter case finds the case |
| CasesPage.SearchSkipsPhone | immigration-app/src/app/dashboard/cases/page.tsx:60-64 | a term found in none of number, names and email does not match: the phone is not searched |
| CasesPage.Stats | immigration-app/src/app/dashboard/cases/page.tsx:148-186 | active (the four open statuses) plus completed is at most the total; this-month is at most the total |
| CasesPage.ThisMonthCounts | immigration-app/src/app/dashboard/cases/page.tsx:186 | the this-month card counts exactly the cases whose creation month equals the current month; nothing else about the date is compared |
| CasesPage.StatusColor | immigration-app/src/app/dashboard/cases/page.tsx:71-83 | the 8 listed statuses get their classes and any other the gray default |
| CasesPage.StatusColorActive | immigration-app/src/app/dashboard/cases/page.tsx:71-83 | no active status is gray, and an unlisted status such as REJECTED looks like COMPLETED |
| DocumentsPage.FilteredDocumentsSound | immigration-app/src/app/dashboard/documents/page.tsx:66-69 | 'all' keeps every document; any other value keeps exactly the documents with that status, in order |
| DocumentsPage.CountWithStatus | immigration-app/src/app/dashboard/documents/page.tsx:159 | a status card counts at most all documents |
| DocumentsPage.CountsWithinTotal | immigration-app/src/app/dashboard/documents/page.tsx:147-185 | pending, approved and rejected together are at most the total |
| DocumentsPage.FilterMatchesCard | immigration-app/src/app/dashboard/documents/page.tsx:66-69 | choosing a status shows as many documents as that status's card counts |
| DocumentsPage.EmptyMessage | immigration-app/src/app/dashboard/documents/page.tsx:213-215 | the upload hint is shown exactly when the filter is 'all' |
| DocumentsPage.IconMatchesBadge | immigration-app/src/app/dashboard/documents/page.tsx:71-95 | icon and badge share one colour; only PENDING, APPROVED and REJECTED get their own icon and a colour other than gray |
| DocumentsPage.RoundedTenths | immigration-app/src/app/dashboard/documents/page.tsx:99-100 | the tenths `toFixed(1)` prints are the quotient rounded to the nearest tenth, halves up |
| DocumentsPage.ParseTenthsInverse | immigration-app/src/app/dashboard/documents/page.tsx:99-100 | the printed tenths read back as the number |
| DocumentsPage.FormatFileSizeBytes | immigration-app/src/app/dashboard/documents/page.tsx:98 | below 1024 the text is the exact byte count and " B" |
| DocumentsPage.FormatFileSizeKilobytes | immigration-app/src/app/dashboard/documents/page.tsx:99 | from 1024 below 1048576 the text is " KB" after the size in kilobytes to the nearest tenth |
| DocumentsPage.FormatFileSizeMegabytes | immigration-app/src/app/dashboard/documents/page.tsx:100 | from 1048576 up the text is " MB" after the size in megabytes to the nearest tenth |
| DocumentsPage.ClientName | immigration-app/src/app/dashboard/documents/page.tsx:261 | empty without a linked case; otherwise the first name, one space and the last name |
| DocumentsPage.Actions | immigration-app/src/app/dashboard/documents/page.tsx:280-302 | approve and reject are offered exactly for PENDING documents; view is always last |
| DocumentsPage.RejectReason | immigration-app/src/app/dashboard/documents/page.tsx:59-64 | rejection goes on exactly when the prompt returned a non-empty reason, and with that reason |
| AppointmentsPage.FilteredAppointments | immigration-app/src/app/dashboard/appointments/page.tsx:190 | the shown count is at most the total |
| AppointmentsPage.FilteredAppointmentsSound | immigration-app/src/app/dashboard/appointments/page.tsx:49-52 | 'all' keeps every appointment; otherwise exactly those with the status are kept, in order |
| AppointmentsPage.Stats | immigration-app/src/app/dashboard/appointments/page.tsx:141-179 | scheduled plus completed is at most the total, and so is this week's count |
| AppointmentsPage.ThisWeekCounts | immigration-app/src/app/dashboard/appointments/page.tsx:174-179 | the week card counts exactly the appointments with now ≤ scheduledAt ≤ now + 604800000 |
| AppointmentsPage.IconMatchesBadge | immigration-app/src/app/dashboard/appointments/page.tsx:54-80 | icon and badge agree on every status except NO_SHOW, whose badge is orange while its icon is the gray default |
| AppointmentsPage.CaseLabel | immigration-app/src/app/dashboard/appointments/page.tsx:221 | "No Case Linked" exactly when no case is linked |
| CommunicationsPage.TypeName | src/app/dashboard/communications/page.tsx:24 | no channel is named 'all' |
| CommunicationsPage.TypeNameInjective | src/app/dashboard/communications/page.tsx:24 | the three channels have three different names |
| CommunicationsPage.FilteredCommunicationsSound | src/app/dashboard/communications/page.tsx:89-98 | the shown messages are exactly the matching ones, in order; an unknown type shows none; no search and 'all' show all |
| CommunicationsPage.CountOfType | src/app/dashboard/communications/page.tsx:197-219 | a channel card counts at most all messages |
| CommunicationsPage.CountsAddUp | src/app/dashboard/communications/page.tsx:186-219 | the email, SMS and call cards add up to the total |
| CommunicationsPage.TypeIconOf | src/app/dashboard/communications/page.tsx:100-107 | every channel's icon has a colour other than gray |
| CommunicationsPage.GetStatusBadge | src/app/dashboard/communications/page.tsx:109-130 | the check icon exactly for sent, delivered and received; the cross exactly for failed; any other status raw and gray |
| CommunicationsPage.StatusBadgeLabel | src/app/dashboard/communications/page.tsx:109-130 | known statuses are labelled with the first letter raised; others as they are; green exactly for the three successes |
| ActivityPage.TypeName | immigration-app/src/app/dashboard/activity/page.tsx:24 | no activity type is named 'all' |
| ActivityPage.TypeIconOf | immigration-app/src/app/dashboard/activity/page.tsx:59-69 | only the system type is gray; the file icon is used exactly for case and document entries |
| ActivityPage.TypeIconsDistinct | immigration-app/src/app/dashboard/activity/page.tsx:59-69 | two different types never get the same icon in the same colour, so case and document differ by colour |
| ActivityPage.FilteredActivitiesSound | immigration-app/src/app/dashboard/activity/page.tsx:48-57 | the shown items are exactly the matching ones, in order; each has the selected type; no search and 'all' show all |
| ActivityPage.SearchWithoutEntityName | immigration-app/src/app/dashboard/activity/page.tsx:49-52 | an item without an entity name matches only through its description or user |
| ActivityPage.CardsByTimestampText | immigration-app/src/app/dashboard/activity/page.tsx:149-171 | Today counts the timestamps containing "hour", This Week those containing "day", System the system items |
| ActivityPage.HoursAgoNotThisWeek | immigration-app/src/app/dashboard/activity/page.tsx:149-160 | for every number n, "n hours ago" counts as today and never as this week |
| ActivityPage.GetActionBadge | immigration-app/src/app/dashboard/activity/page.tsx:71-87 | the 7 known actions get their colours and others gray; the label is the action with every '_' turned to a space |
| ActivityPage.ActionBadgeExamples | immigration-app/src/app/dashboard/activity/page.tsx:71-87 | "status_update" is a blue badge reading "status update"; an unlisted action such as "archive" is gray |
| Session.GetItem | src/hooks/useAuth.ts:12-15 | `getItem` returns the stored text, or null exactly for a missing key |
| Session.SignedIn | immigration-app/src/app/auth/login/auth-form.tsx:60-63 | the login writes isLoggedIn='true', the email, 'Demo Admin' and 'ADMIN' and leaves the other keys |
| Session.SignedOut | src/hooks/useAuth.ts:36-39 | sign-out removes exactly the four session keys |
| Session.SessionStates | src/components/layout/DashboardLayout.tsx:48 | a login opens a session iff its email is non-empty; after a sign-out the guard always fails |
| Session.SignOutUndoesLogin | src/components/layout/DashboardLayout.tsx:57-63 | signing out after a login leaves what signing out before it would have left |
| Session.SignOutIdempotent | src/hooks/useAuth.ts:36-39 | signing out a second time changes nothing |
| Session.WriteLogin | immigration-app/src/app/auth/login/auth-form.tsx:60-63 | the four `setItem` calls leave the store signed in |
| Session.RemoveSession | src/components/layout/DashboardLayout.tsx:58-61 | the four `removeItem` calls leave the store signed out |
| DashboardLayout.Segments | src/components/layout/DashboardLayout.tsx:38 | the path splits into non-empty segments without '/' |
| DashboardLayout.SegmentTitle | src/components/layout/DashboardLayout.tsx:41 | the first character raised and the other hyphens shown as spaces, same length |
| DashboardLayout.PageTitle | src/components/layout/DashboardLayout.tsx:37-42 | "Dashboard" on '/' or when the first segment is 'dashboard'; otherwise the title of the last segment |
| DashboardLayout.PageTitleUnderDashboard | src/components/layout/DashboardLayout.tsx:39 | every path under /dashboard, /dashboard/leads included, is titled "Dashboard" |
| DashboardLayout.IntendedPageTitleNamesPage | src/components/layout/DashboardLayout.tsx:37-42 | with the corrected test, pages below the dashboard get their last segment's title and /dashboard stays "Dashboard" |
| DashboardLayout.IsActiveCases | src/components/layout/DashboardLayout.tsx:118 | the dashboard link is active only on an exact match; another link is active on every path it is a prefix of |
| DashboardLayout.OneActiveItem | src/components/layout/DashboardLayout.tsx:65-74 | on any path at most one navigation item is highlighted |
| DashboardLayout.NavDistinct | src/components/layout/DashboardLayout.tsx:65-74 | the links are distinct and none but the dashboard's is a prefix of another |
| DashboardLayout.LayoutState.RunGuard | src/components/layout/DashboardLayout.tsx:44-55 | without isLoggedIn and userEmail it redirects to login and sets no user; otherwise the user has the stored email and name, "User" when there is none |
| DashboardLayout.LayoutState.HandleSignOut | src/components/layout/DashboardLayout.tsx:57-63 | the four keys are removed, the store has no session, the browser goes to login |
| AuthForm.IsValidEmailMatchesRegex | immigration-app/src/app/auth/login/auth-form.tsx:21-23 | the positional test holds exactly when the text is plain characters, '@', plain characters, '.', plain characters |
| AuthForm.IsValidEmailInWords | immigration-app/src/app/auth/login/auth-form.tsx:21-23 | valid iff no whitespace, exactly one '@' with text before it, and a '.' in the domain with text on both sides |
| AuthForm.AdminEmailValid | immigration-app/src/app/auth/login/auth-form.tsx:26 | the demo address passes the check |
| AuthForm.ErrorText | immigration-app/src/app/auth/login/auth-form.tsx:44-68 | the error is empty exactly on success |
| AuthForm.OutcomeCases | immigration-app/src/app/auth/login/auth-form.tsx:42-69 | success iff the demo credentials; an invalid email is reported whatever the password; then an empty password; then wrong credentials |
| AuthForm.AuthFormState.HandleSubmit | immigration-app/src/app/auth/login/auth-form.tsx:42-69 | the error is the outcome's text; loading stays on only on success; the store is written and the dashboard opened only on success |
| AuthForm.AuthFormState.HandleOneClickLogin | immigration-app/src/app/auth/login/auth-form.tsx:25-31 | the fields take the demo credentials |
| AuthForm.AuthFormState.OneClickTimerFires | immigration-app/src/app/auth/login/auth-form.tsx:33-39 | the timer writes the same four entries as a successful submit and opens the dashboard |
| AuthForm.OneClickSameAsSubmit | immigration-app/src/app/auth/login/auth-form.tsx:25-64 | the demo credentials succeed, and the store they write holds a session |
| UseAuth.AfterEffect | src/hooks/useAuth.ts:11-30 | loading ends; without a session the user stays null; otherwise it is built from the stored email, name and role and is active |
| UseAuth.HookStatus | src/hooks/useAuth.ts:32 | "loading" exactly while loading |
| UseAuth.AuthenticatedWithoutUser | src/hooks/useAuth.ts:17-21 | on a store without a session the hook ends with a null user and reports "authenticated" |
| UseAuth.IntendedStatusAfterEffect | src/hooks/useAuth.ts:32 | the corrected status is "authenticated" iff the store held a session, else "unauthenticated" |
| UseAuth.AuthHook.constructor | src/hooks/useAuth.ts:8-9 | no user, loading |
| UseAuth.AuthHook.RunEffect | src/hooks/useAuth.ts:11-30 | the new user and loading flag are the effect's result; the browser goes to login exactly without a session |
| UseAuth.SignOut | src/hooks/useAuth.ts:35-41 | the four keys are removed, after which the guard fails, and the location is the login page |
| NewLeadForm.ChangeField | immigration-app/src/app/dashboard/leads/new/page.tsx:40 | the field takes the value and every other field keeps its own |
| NewLeadForm.ClearError | immigration-app/src/app/dashboard/leads/new/page.tsx:41-47 | the field's error is removed only when present and non-empty; other errors are unchanged; nothing is added |
| NewLeadForm.ErrorsStayEmpty | immigration-app/src/app/dashboard/leads/new/page.tsx:23-47 | the error map, empty at the start, stays empty whatever fields are changed |
| NewLeadForm.ClearAll | immigration-app/src/app/dashboard/leads/new/page.tsx:41-47 | a run of changes never adds an error |
| NewLeadForm.NewLeadPage.constructor | immigration-app/src/app/dashboard/leads/new/page.tsx:13-24 | empty names, email and phones, source Website, priority MEDIUM, status NEW, no errors, not submitting |
| NewLeadForm.NewLeadPage.HandleChange | immigration-app/src/app/dashboard/leads/new/page.tsx:39-48 | the form data and errors are updated as above; nothing else changes |
| NewLeadForm.NewLeadPage.HandleSubmit | immigration-app/src/app/dashboard/leads/new/page.tsx:26-37 | isSubmitting is written true then false and ends false; the leads list opens; the data is untouched |
| AutomationSettings.InitialSettingsValues | src/app/dashboard/settings/automation/page.tsx:13-19 | exactly emailEnabled, smsEnabled and autoReminders start on |
| AutomationSettings.Toggled | src/app/dashboard/settings/automation/page.tsx:23-28 | the key is negated and the other four keep their values |
| AutomationSettings.ToggleLaws | src/app/dashboard/settings/automation/page.tsx:23-28 | toggling a key twice restores the settings; toggles of two keys commute |
| AutomationSettings.AutomationPage.HandleToggle | src/app/dashboard/settings/automation/page.tsx:23-28 | settings become the toggled settings; saving is unchanged |
| AutomationSettings.AutomationPage.HandleSave | src/app/dashboard/settings/automation/page.tsx:30-32 | saving is set and the settings are unchanged |
| AutomationSettings.AutomationPage.SaveFinished | src/app/dashboard/settings/automation/page.tsx:33-35 | saving is cleared, the settings are unchanged, the saved message is returned |

## Left out

- JSX rendering, icons' exact Tailwind class strings (tones stand for them), `router.push`/`back` beyond the recorded target, `alert`, Blob/URL download and `console.log`.
- Unicode letter case: `toLowerCase`/`toUpperCase` are modelled on ASCII letters only. Strings are sequences of Unicode scalar values, not UTF-16 code units, so the following are not modelled for astral-plane text: `<`, `charAt` on a surrogate pair, Helpers.SanitizeFilename (the regex has no `u` flag, so JavaScript replaces each half of a surrogate pair, and "😀" becomes "__" where the model gives "_"), and Helpers.TruncateText (it counts and cuts code units, so "😀😀😀" with maxLength 4 becomes "😀😀..." in JavaScript while the model returns it unchanged).
- Helpers.DaysBetween: the double division `|t1 - t2| / 86400000` is treated as exact before rounding.
- `Record` lookups on keys inherited from `Object.prototype` (such as "constructor"): the tables are modelled as plain maps.
- Seqs.Sort: `Array.prototype.sort` is modelled as an insertion sort. The comparator answers -1 for equal values in both orders, so the engine's order of equal rows is implementation-defined. The permutation and the column order are proved for the model's sort, not for the engine's.
- LeadsPage.FieldValue: sorting by `assignedTo` or `_count`, whose values are objects, treats them as missing values; the page offers no such column.
- Calendar dates in local time: `getNextBusinessDay` works on day numbers, whose weekday is fixed by the epoch. `getMonth` on the cases page is a parameter, `monthOf`. `toLocaleDateString`/`toLocaleTimeString` text is a parameter (`dateText`) or left out. An invalid `Date` (NaN) is not modelled.
- Helpers.GenerateToken: the default length of 32 and the `Math.random` source are parameters; a fractional length is not modelled.
- Helpers.TruncateText: a fractional `maxLength` is not modelled.
- DocumentsPage.FormatFileSize: written for integer byte counts below 2^53, where `bytes / 1024` and `bytes / 1048576` are exact doubles. A fractional or non-finite size is not modelled, nor the exponent form `toFixed` uses from 10^21.
- Helpers: `formatFileSize` (logarithms), `formatCurrency` (`Intl`), `isPassportExpiringSoon` and the MONTHLY/YEARLY branches of `getNextRecurrenceDate` (calendar rollover), `isValidPhone`, `getInitials` and `parseRecurrenceRule` are not part of this model.
- The leads page's conversion-rate percentage and the mock data arrays; the approve handler only logs.
- Email and SMS services, the NextAuth configuration, the settings page and the static pages are not part of this model.
- The other half of `handleSave`: the 1000 ms wait is the boundary between `HandleSave` and `SaveFinished`. The 100 ms one-click timer is likewise the boundary between `HandleOneClickLogin` and `OneClickTimerFires`.
- A `router.push` that throws inside the new-lead `handleSubmit`: the `catch` only logs and `finally` clears the flag either way.
- The helpers do not contain a case-status transition engine, a reminder matcher or a lead-to-case conversion, so none is modelled.

## Findings

| source | as written | input that shows it | evidently intended | confidence | as-written member | corrected member |
|---|---|---|---|---|---|---|
| src/components/layout/DashboardLayout.tsx:39 | the title is "Dashboard" whenever the first path segment is 'dashboard', and every page the layout wraps lives under /dashboard, so the last-segment title is never shown | pathname "/dashboard/leads" gives "Dashboard" | "Dashboard" only on /dashboard itself, "Leads" on /dashboard/leads (`IntendedPageTitle`) | medium; not executed | DashboardLayout.PageTitleUnderDashboard | DashboardLayout.IntendedPageTitleNamesPage |
| src/hooks/useAuth.ts:32 | the status depends on `loading` alone, so after the guard has redirected a visitor with no session the hook reports "authenticated" with a null user | a store without isLoggedIn | "unauthenticated" when loading has finished with no user, as a session hook reports it (`IntendedStatus`) | high; not executed | UseAuth.AuthenticatedWithoutUser | UseAuth.IntendedStatusAfterEffect |
