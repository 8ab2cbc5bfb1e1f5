# Dental clinic data views — a Dafny model of the local-storage branch

The clinic front end has four data views: the appointment calendar, the
notification centre, the financial dashboard and the patient registry. In
development mode each view keeps its collection as a JSON array under a
fixed browser-storage key (`dentclinic-appointments`,
`dentclinic-notifications`, `dentclinic-financial-records`,
`dentclinic-patients`). Every operation loads the whole array, transforms
it and writes it back. This project models those operations and proves
what they promise:

- **Storage** (`storage.dfy`). A storage key is a class `StorageKey<T>`
  whose `entry` is `Absent`, `Unreadable` (text that does not parse) or
  `Present(records)`. `Loaded()` is the load helper: a missing, empty or
  unparsable key reads as the empty list. `Save` is the save helper.
- **Appointments** (`appointments.dfy`).
  - The half-hour slot table.
  - The day view and its availability test.
  - Booking with its conflict check on (date, time).
  - Soft cancellation.
  - The patient-name suggestions.
  
  The central invariant `NoDoubleBooking` says at most one non-cancelled
  appointment holds any (date, time). Booking and cancelling both preserve
  it.
- **Notifications** (`notifications.dfy`).
  - Tab filtering.
  - Newest-first ordering, an in-place insertion sort on an array.
  - Mark as read.
  - Sending a message.
  - One reminder per scheduled appointment of tomorrow, built by a loop.
  - The unread count.
- **Finance** (`finance.dfy`).
  - Validated insertion at the front of the ledger.
  - The type and category filters, and the category resets when a type
    changes.
  - The income, expense and balance totals.
- **Patients** (`patients.dfy`).
  - The three-field search.
  - Required-field validation.
  - Create (append), edit by id (id and creation time kept) and hard delete.
- **Shared modules.** `lists.dfy` holds recursive models of
  `filter`/`find`/`some`/`map`, with contracts saying what they
  compute, and of the summing `reduce`, whose properties are lemmas. `text.dfy` holds `trim` (with the WhiteSpace and LineTerminator
  code points of ECMA-262, sections 12.2 and 12.3), `toLowerCase` and
  `includes`.

Every id the source draws from `generateId()` and every clock reading is a
parameter of the operation. A fresh id is a precondition (`id !in Ids(..., IdOf)`); the ids handed to the reminder generator must also be distinct from each other.
"Tomorrow" is a date parameter. Notification dates are millisecond
timestamps (`int`), the values the sort compares. Amounts are exact `real`s.

## Model

| member | source | states |
|---|---|---|
| Storage.Load | src/components/AppointmentsCalendar.tsx:60-70 | a parsed array loads as itself; a missing, empty or unparsable key loads as the empty list |
| Storage.StorageKey.Save | src/components/AppointmentsCalendar.tsx:73-79 | the key afterwards holds exactly the saved array, whatever it held before |
| Text.TrimStart | src/components/AppointmentsCalendar.tsx:261 | the result is a suffix of the input, the dropped prefix is all whitespace, and the result is empty or starts with a non-whitespace character |
| Text.TrimEnd | src/components/AppointmentsCalendar.tsx:261 | the result is a prefix of the input, the dropped suffix is all whitespace, and the result is empty or ends with a non-whitespace character |
| Text.Trim | src/components/Notifications.tsx:217 | `s.trim()`: `TrimStart` then `TrimEnd`, removing the leading and the trailing run of ECMAScript whitespace and line terminators (definition) |
| Text.IsBlank | src/components/AppointmentsCalendar.tsx:261 | `!s.trim()`: the trimmed string is empty, that is every character is ECMAScript whitespace by `Text.BlankIffAllWhitespace`; the test behind every blank-field refusal (definition) |
| Text.BlankIffAllWhitespace | src/components/AppointmentsCalendar.tsx:261 | a field fails the `!s.trim()` test exactly when every character of it is whitespace |
| Text.LowerChar | src/components/PatientManagement.tsx:100-101 | `toLowerCase` on one character: A–Z and U+00C0–U+00DE except U+00D7 move up by 0x20, every other character is kept (definition) |
| Text.ToLower | src/components/PatientManagement.tsx:100-101 | lower-casing keeps the length and lowers each character on its own |
| Text.ContainsIffOccurs | src/components/PatientManagement.tsx:100-102 | `includes` holds exactly when the term occurs at some position of the string |
| Text.ContainsEmpty | src/components/PatientManagement.tsx:99-103 | every string includes the empty term |
| Text.Contains | src/components/PatientManagement.tsx:100-102 | `s.includes(t)`: `t` is a prefix of `s` or of one of its suffixes (its meaning is `Text.ContainsIffOccurs`) |
| Appointments.SlotMinutes | src/components/AppointmentsCalendar.tsx:10-13 | each slot label has the form HH:MM and denotes the expected minute of the day |
| Appointments.TimeSlotsShape | src/components/AppointmentsCalendar.tsx:10-13 | 18 labels, strictly increasing, on the half hour, all within 08:00–11:30 or 13:00–17:30, none at 12:00 or 12:30 |
| Appointments.DayAppointments | src/components/AppointmentsCalendar.tsx:170-174 | the day view holds every stored appointment of that date (with its multiplicity) and nothing else |
| Appointments.DayAppointmentsKeepOrder | src/components/AppointmentsCalendar.tsx:171-173 | the day view lists its appointments in stored order |
| Appointments.IsTimeSlotAvailable | src/components/AppointmentsCalendar.tsx:216-220 | a slot is free exactly when no appointment of the day holds that time and is not cancelled |
| Appointments.GetAppointmentAtTime | src/components/AppointmentsCalendar.tsx:223-227 | returns an appointment exactly when the slot is unavailable; the result is the first appointment of the day that has that time and is not cancelled |
| Appointments.FindConflict | src/components/AppointmentsCalendar.tsx:281-285 | finds an appointment exactly when a stored non-cancelled appointment holds the (date, time); the result is one of them |
| Appointments.AvailabilityMatchesStore | src/components/AppointmentsCalendar.tsx:171-173 | availability on the date-filtered list agrees with the booking conflict check on the whole store |
| Appointments.BookingKeepsNoDoubleBooking | src/components/AppointmentsCalendar.tsx:281-298 | appending after a passed conflict check keeps at most one live appointment per (date, time) |
| Appointments.BookedSlotIsTaken | src/components/AppointmentsCalendar.tsx:292-298 | after a live appointment is appended its slot is unavailable on its day |
| Appointments.BookingKeepsIdsUnique | src/components/AppointmentsCalendar.tsx:292-297 | appending with a fresh id keeps ids unique |
| Appointments.AfterCancel | src/components/AppointmentsCalendar.tsx:343-348 | same length; records with the id become cancelled with every other field kept; all other records are unchanged |
| Appointments.CancelIdempotent | src/components/AppointmentsCalendar.tsx:343-348 | cancelling twice equals cancelling once |
| Appointments.CancelKeepsNoDoubleBooking | src/components/AppointmentsCalendar.tsx:343-350 | cancelling keeps at most one live appointment per (date, time) |
| Appointments.CancelFreesSlot | src/components/AppointmentsCalendar.tsx:343-348 | after a cancel a slot is free exactly when every live holder of it had the cancelled id |
| Appointments.CancelledSlotBecomesFree | src/components/AppointmentsCalendar.tsx:343-350 | in a store without double booking, cancelling a live appointment frees its slot |
| Appointments.SearchPatients | src/components/AppointmentsCalendar.tsx:120-135 | a blank term suggests nobody; otherwise exactly the patients whose lower-cased name includes the lower-cased term, with their multiplicities |
| Appointments.SuggestionsKeepOrder | src/components/AppointmentsCalendar.tsx:128-131 | suggestions are listed in the registry's order |
| Appointments.SuggestionsAreRegistryHits | src/components/AppointmentsCalendar.tsx:128-131 | every name suggestion also appears in the registry's own search for the same term |
| Appointments.NewAppointment | src/components/AppointmentsCalendar.tsx:267-295 | the appended record: the drawn id, the patient name, date, time and notes as given, no patient id, status scheduled and `created_at` the clock reading (definition) |
| Appointments.ScheduleAppointment | src/components/AppointmentsCalendar.tsx:258-298 | a blank name or a conflict leaves the store as it was; otherwise exactly one scheduled appointment is appended; the no-double-booking invariant and unique ids are kept; a booked slot is then unavailable |
| Appointments.CancelAppointment | src/components/AppointmentsCalendar.tsx:335-350 | nothing happens without a selection; otherwise the store becomes the cancel map of what it held; the invariant is kept |
| Appointments.BookingScenario | src/components/AppointmentsCalendar.tsx:281-298 | a slot taken by one patient is refused to a second one and is accepted for them once the first appointment is cancelled |
| Notifications.FilterByTab | src/components/Notifications.tsx:126-132 | tab "all" keeps the list; "unread" keeps exactly the unread notifications; a type tab keeps exactly those of that type |
| Notifications.FilterByTabKeepsOrder | src/components/Notifications.tsx:126-132 | filtering keeps the stored order |
| Notifications.InsertNewest | src/components/Notifications.tsx:135-137 | one insertion step: a newest-first prefix grows by one element and the array keeps its contents |
| Notifications.SortNewestFirst | src/components/Notifications.tsx:135-137 | the array ends up ordered by non-increasing date and is a permutation of what it held |
| Notifications.FetchNotifications | src/components/Notifications.tsx:111-137 | the fetched list is a permutation of the tab's filtered list and is newest first |
| Notifications.UnreadCountOfPermutation | src/components/Notifications.tsx:421 | the unread count does not depend on the order of the list |
| Notifications.UnreadTabCountsAll | src/components/Notifications.tsx:421 | on the "unread" tab the count equals the number of listed notifications |
| Notifications.UnreadCount | src/components/Notifications.tsx:421 | the number of unread notifications: at most the length, zero exactly when everything is read, the full length exactly when nothing is |
| Notifications.UnreadCountPrepend | src/components/Notifications.tsx:241 | unread notifications put in front raise the count by their number |
| Notifications.MarkedRead | src/components/Notifications.tsx:179-184 | same length; a notification is read afterwards exactly when it was read or has the id; no other field changes |
| Notifications.MarkAsReadIdempotent | src/components/Notifications.tsx:179-184 | marking twice equals marking once |
| Notifications.UnreadCountAfterMarkAsRead | src/components/Notifications.tsx:179-186 | the unread count drops by the number of unread notifications with the id |
| Notifications.MarkAsRead | src/components/Notifications.tsx:173-186 | the store becomes the mark-read map of what it held; nothing read becomes unread |
| Notifications.SentMessageTabs | src/components/Notifications.tsx:244-246 | the tabs on which the view prepends a sent message are exactly those that would show it |
| Notifications.PrependKeepsIdsUnique | src/components/Notifications.tsx:241 | notifications with distinct ids the store does not use keep the store's ids unique when put in front |
| Notifications.MessageIncomplete | src/components/Notifications.tsx:217 | a message is refused when the patient, the title or the body is blank after trimming (definition) |
| Notifications.NewMessage | src/components/Notifications.tsx:223-239 | the prepended notification: the drawn id, the title and body as typed, type message, date the clock reading, unread, no patient id and the patient name as typed (definition) |
| Notifications.SendMessage | src/components/Notifications.tsx:214-242 | a blank patient, title or body is refused with the store unchanged; otherwise one unread message is prepended to the unchanged rest, raising the unread count by one; unique ids are kept |
| Notifications.TomorrowAppointments | src/components/Notifications.tsx:298-300 | exactly the stored appointments of tomorrow with status scheduled, with their multiplicities |
| Notifications.TomorrowAppointmentsKeepOrder | src/components/Notifications.tsx:298-300 | tomorrow's appointments, and so the reminders, follow the stored order |
| Notifications.ReminderText | src/components/Notifications.tsx:316 | the reminder body: "Lembrete: ", the patient name, " tem consulta agendada para amanhã às ", the slot time and a full stop (definition) |
| Notifications.Reminder | src/components/Notifications.tsx:313-321 | one reminder: the drawn id, the fixed title "Lembrete Automático de Consulta", `ReminderText` of the appointment, type appointment, date the clock reading, unread, no patient id and the appointment's patient name (definition) |
| Notifications.Reminders | src/components/Notifications.tsx:312-324 | one reminder per appointment, in the appointments' order, the i-th built from the i-th appointment |
| Notifications.RemindersAreUnreadAppointments | src/components/Notifications.tsx:313-321 | every reminder is an unread "appointment" notification with the fixed title and its appointment's patient name |
| Notifications.ReminderTabs | src/components/Notifications.tsx:329-331 | the tabs on which the view prepends reminders are exactly those that would show them |
| Notifications.BuildReminders | src/components/Notifications.tsx:310-324 | the loop yields exactly the reminder list |
| Notifications.CreateAppointmentReminders | src/components/Notifications.tsx:279-327 | a missing or unreadable appointments key, or no scheduled appointment tomorrow, leaves the notifications as they were; otherwise the reminders go in front of the unchanged store and the unread count rises by their number; with distinct unused ids the store's ids stay unique |
| Finance.InitialForm | src/components/FinancialDashboard.tsx:41-47 | the form opens as income, with empty description and amount, today's date and the first income category |
| Finance.CategoriesFor | src/components/FinancialDashboard.tsx:208-211 | income offers the income categories, anything else the expense categories (definition) |
| Finance.ChangeFormType | src/components/FinancialDashboard.tsx:367-373 | switching type sets the category to the first one of that type's list and keeps every other field |
| Finance.Rejected | src/components/FinancialDashboard.tsx:113 | a submission is refused when the description is blank, the amount box is empty or the amount is not above zero (definition) |
| Finance.NewRecord | src/components/FinancialDashboard.tsx:121-128 | the stored record carries the form's type, description, date and category, and its positive amount |
| Finance.SubmitRecord | src/components/FinancialDashboard.tsx:110-132 | a blank description, an empty amount or one not above zero is refused with the store unchanged; otherwise the record goes in front of the unchanged rest; positive amounts and unique ids are kept |
| Finance.SelectType | src/components/FinancialDashboard.tsx:250-254 | choosing a type filter clears the category filter |
| Finance.SelectCategory | src/components/FinancialDashboard.tsx:263-265 | choosing "all categories" clears the category filter; any other value selects it |
| Finance.FilteredRecords | src/components/FinancialDashboard.tsx:183-195 | a record is listed exactly when its type passes the type filter and its category passes the category filter |
| Finance.FilteredRecordsKeepOrder | src/components/FinancialDashboard.tsx:183-195 | the table keeps the stored order |
| Finance.NoFilterShowsAll | src/components/FinancialDashboard.tsx:183-195 | with type "all" and no category every record is listed |
| Finance.TotalIncome | src/components/FinancialDashboard.tsx:197-199 | the sum of the listed income amounts (definition; its properties are the lemmas below) |
| Finance.TotalExpenses | src/components/FinancialDashboard.tsx:201-203 | the sum of the listed expense amounts (definition; its properties are the lemmas below) |
| Finance.Balance | src/components/FinancialDashboard.tsx:205 | income total minus expense total (definition; `Finance.BalanceIsSignedSum` gives its meaning) |
| Finance.TotalsCoverEverything | src/components/FinancialDashboard.tsx:197-203 | income and expense totals together add up every listed amount |
| Finance.BalanceIsSignedSum | src/components/FinancialDashboard.tsx:197-205 | the balance is the sum of the listed amounts, incomes counted positively and expenses negatively |
| Finance.BalanceAfterInsert | src/components/FinancialDashboard.tsx:129-132 | a new front record moves the table's balance by its signed amount when the filters list it, and not at all otherwise |
| Finance.OneTypeFilterZeroesTheOther | src/components/FinancialDashboard.tsx:183-203 | with the income filter the expense total is zero, and the other way round |
| Finance.TotalsNonNegative | src/components/FinancialDashboard.tsx:197-203 | with every stored amount positive, neither total is negative under any filter |
| Patients.FilteredPatients | src/components/PatientManagement.tsx:99-103 | a patient is listed exactly when the lower-cased name or e-mail includes the lower-cased term, or the phone includes the term as typed |
| Patients.SearchKeepsOrder | src/components/PatientManagement.tsx:99-103 | the search keeps the registry's order |
| Patients.EmptySearchKeepsAll | src/components/PatientManagement.tsx:99-103 | an empty search box lists every patient |
| Patients.MissingRequired | src/components/PatientManagement.tsx:133 | name, e-mail and phone are required, and only the empty string counts as missing (definition) |
| Patients.Updated | src/components/PatientManagement.tsx:150-154 | same length; every record keeps its id and creation time; records with the edited id take the form's fields and an update time; the others are unchanged |
| Patients.UpdateKeepsIds | src/components/PatientManagement.tsx:150-154 | editing keeps the set of ids, and keeps them unique |
| Patients.NewPatient | src/components/PatientManagement.tsx:138-164 | the appended patient: the drawn id, the form's name, e-mail, phone, birth date and address, `created_at` the clock reading and no `updated_at` (definition) |
| Patients.CreateKeepsIdsUnique | src/components/PatientManagement.tsx:159-165 | appending a patient with a fresh id keeps ids unique and adds exactly that id |
| Patients.Deleted | src/components/PatientManagement.tsx:214 | no remaining patient has the id; every other patient stays with its multiplicity |
| Patients.DeleteKeepsOrder | src/components/PatientManagement.tsx:214 | delete keeps the other patients in order |
| Patients.DeleteAbsentIsIdentity | src/components/PatientManagement.tsx:214 | deleting an id nobody has changes nothing |
| Patients.DeleteUndoesCreate | src/components/PatientManagement.tsx:214 | deleting a just-created patient restores the registry |
| Patients.SubmitPatient | src/components/PatientManagement.tsx:129-167 | a missing name, e-mail or phone is refused with the store unchanged; an edit stores the edit map; a create appends one new patient; unique ids are kept |
| Patients.DeletePatient | src/components/PatientManagement.tsx:208-216 | an unconfirmed delete changes nothing; a confirmed one stores the list without that id |

## Left out

- The hosted-backend branches of every operation. Only the development-mode storage branch is modelled. (The hosted booking path inserts with no conflict check, so `NoDoubleBooking` is a property of the storage branch only.)
- Storage.Load: a key whose text parses to a JSON value that is not an array (`null`, an object, a number) is not modelled. The source's load helpers return that value unchanged, and the caller's array method (`find`, `sort`, `filter`) then throws.
- JSON parsing and printing. A stored array is a sequence of records. A parse failure is the `Unreadable` entry, and storage write failures (quota) are not modelled.
- `generateId()` and the clock. Each becomes a parameter; freshness of ids is a precondition.
- Conversion between dates and strings. Appointment and ledger dates are opaque strings compared by equality. Notification dates are timestamps, and an invalid date (`NaN` in the comparator) is not modelled.
- Floating-point arithmetic, `parseFloat` and `formatCurrency`. Amounts are exact reals, and the empty amount box is `None`. A non-empty box always holds a number.
- Text.LowerChar: lower-casing covers A–Z and the Latin-1 capitals only. Other Unicode case mappings are not modelled.
- Strings are sequences of Unicode scalar values, not UTF-16 code units.
- Notifications.FetchNotifications: when the store is empty, the source seeds four demo notifications and shows those. The model shows the empty list. The order of notifications with equal dates is left open, as for Notifications.SortNewestFirst below. Demo seeding is left out, along with toasts, loading flags, modals and `setTimeout`.
- Notifications.SortNewestFirst: the JavaScript sort is stable and this insertion sort is too. However, stability is not part of the contract, which promises ordering and permutation only.
- Notifications.CreateAppointmentReminders: the source reads the clock once per reminder. The model stamps every reminder with the same `now`.
- The view-state copies: the lists kept in React state and their in-place updates after each operation. Only the two tab lemmas relate them to the store.
- Patients.SubmitPatient and Patients.DeletePatient: the source edits, extends or filters the list the view loaded (`patients`). The model uses the list under the key, which is the same list within one session.
- The other source files (authentication store, backend client, dashboard, login, profile, sidebars and the second notification centre) are not part of this model.
