# mytomasino ticket core, modelled in Dafny

mytomasino is a Django helpdesk for a university. Students sign up with a university
address, file tickets through category forms, and follow those tickets. The tickets are
routed to an office's staff. Status changes notify the ticket's owner, and every owner
action leaves a line in a history table. This project models that core in Dafny:

- the ticket, history and notification tables;
- the pre-save and post-save hooks;
- the ticket views and the category forms;
- office routing;
- the notification feed and the template filters;
- the status e-mail;
- the registration / e-mail verification / login flow;
- the two staff seeding scripts.

The database is one class, `Store.Database`. Its tables are `seq` and `map` fields, kept
in primary-key order. Every ORM call the core makes is one of its methods:

- `save()` with its hook;
- history creation with its hook;
- the on-delete rules (CASCADE or SET_NULL);
- `create_user`;
- `get_or_create`;
- the verification table.

`Database.Valid()` states the schema's uniqueness and referential-integrity constraints.
Every method keeps it. View and script operations are module-level methods over a
`Database`. Validation, routing decisions, message texts and feeds are pure functions,
and lemmas relate them.

Modules follow the source: `TicketModels`, `Signals`, `Routing`, `TicketViews`,
`TicketForms`, `Feed`, `TicketTags`, `AdminPanel`, `Verification` (user forms and
models), `AccountViews` (user views), `CreateStaff` and `DeleteStaff`. Supporting
modules:

- `Wrappers`: Option and Result.
- `Text`: Python string operations such as `strip`, `lower`, `split`, `str(n)` and `strftime` padding.
- `Ordering`: filters and newest-first ordering.
- `Choices`: Django choice lists.
- `Fields`: the cleaning of a single form field.
- `Directory`: users, offices, staff profiles, password hashing.
- `Schema`: tables, constraints, row rewrites.
- `Store`: the database.

Several things are modelled abstractly:

- Time is an integer number of microseconds.
- A password hash is the injective encoding `"pbkdf2_sha256$" + raw`.
- The random digits of a verification code are a parameter.
- The session is the one `email` key the account views use.
- Sent mail is appended to an outbox.

Where the code and the declared models disagree, the model follows the code.
tickets/models.py has no `metadata`, `attachment`, `last_admin_update` or
`last_viewed_by_user` on `Ticket`. It also declares `read`/`timestamp` and no `user` on
`Notification`. Yet tickets/signals.py, tickets/forms.py and
tickets/context_processors.py read and write `Notification.user`, `is_read`,
`created_at`, `notification_type` and `title`. The model has all of these fields.

## Model

| member | source | states |
|---|---|---|
| TicketModels.StatusMatchesChoices | tickets/models.py:6 | every status is stored as one of the three declared codes, shown with its declared label, and reads back as itself |
| TicketModels.StatusFromCode | tickets/models.py:6 | a stored code maps back to the status with that code; codes outside the choices map to nothing |
| TicketModels.NewTicket | tickets/models.py:8-15 | an unsaved ticket has no primary key, status `open`, no assignee, empty metadata, and the given title, description, category and owner |
| TicketModels.HistoryStr | tickets/models.py:31-32 | the text is the title snapshot, or "Deleted ticket" when the title is null or empty, then " - " and the action, with exactly that length |
| Signals.StatusChangeNotice | tickets/signals.py:7-67 | no notice for a new ticket or a missing row; otherwise a notice iff the status changed, or the assignee changed to someone; completed, open to in progress, other status, and reassignment each get their own kind and title |
| Signals.ResaveIsSilent | tickets/signals.py:19-64 | saving a row whose status and assignee are unchanged creates no notification |
| Signals.CompletedNoticeNamesTicket | tickets/signals.py:25-32 | a completion notice is "Ticket Completed" and names the ticket's number and title |
| Signals.InProgressNoticeNamesHandler | tickets/signals.py:35-43 | moving an open ticket to in progress names the assignee's full name, or "our team" when nobody is assigned |
| Signals.HandlerNamed | tickets/signals.py:42 | the in-progress message contains the handler's name verbatim |
| Signals.AssignedNoticeNamesAssignee | tickets/signals.py:56-64 | a new assignee with the status unchanged gets a "Ticket Assigned" notice that names the assignee's full name |
| Signals.StatusUpdateNoticeShowsStatus | tickets/signals.py:46-53 | any other status change reports the new status by its display label |
| Signals.StampsTicketIff | tickets/signals.py:73 | the note hook stamps exactly when the entry has a ticket and "Note added by" occurs somewhere in its action |
| Signals.PlainActionDoesNotStamp | tickets/signals.py:73 | the note hook is case-sensitive: an action without a capital N never stamps a ticket |
| Schema.SavedInstance | tickets/models.py:14-15 | after `save()` the instance has a primary key and `updated_at` is now |
| Schema.NextAfterSave | tickets/models.py:4 | the auto-increment counter never goes back and passes every primary key in use |
| Schema.NoticeRow | tickets/signals.py:66-67 | the hook's notification goes to the ticket's owner, is about the saved ticket, and is unread |
| Schema.NoticeRows | tickets/signals.py:7-67 | one save inserts at most one notification |
| Schema.StoredRow | tickets/signals.py:16 | `Ticket.objects.get(pk=...)` returns a stored row with that key, or nothing when the key is missing or unknown |
| Schema.FindOfficeNamed | tickets/utils.py:15 | the office found has exactly that name; no result means no office has it |
| Store.Database.SaveTicket | tickets/signals.py:7-67 | the hook runs first, then the row is inserted with a fresh key or overwritten; at most the hook's notification is added; the constraints still hold |
| Store.Database.CreateHistory | tickets/signals.py:70-75 | the entry is appended; the linked ticket's `last_admin_update` is stamped exactly when the action contains "Note added by"; nothing else changes |
| Store.Database.DeleteTicket | tickets/models.py:21-26 | the ticket row goes; its notifications cascade; its history entries stay with the reference cleared |
| Store.Database.DeleteUser | tickets/models.py:12-13 | the user's tickets cascade, with their notifications and detached history; tickets assigned to the user lose the assignee; the notifications addressed to the user and the profile go; the new tables are exactly `AfterDeleteUser` of the old ones |
| Store.Database.InsertUser | user/views.py:78-82 | the corrected verification's insert: a user row with a fresh id and the given encoding, taken over unchanged, is appended; user names stay unique |
| Store.Database.CreateUser | create_staff.py:46-50 | `create_user` appends a user whose address domain is lower-cased and whose password is hashed |
| Store.Database.SetStaff | create_staff.py:53-54 | only that user's `is_staff` becomes true |
| Store.Database.GetOrCreateOffice | create_staff.py:30 | the office with that name is returned; a new one is created iff none existed |
| Store.Database.CreateStaffProfile | create_staff.py:57 | one profile linking the user and the office is appended |
| Store.Database.SaveVerification | user/views.py:26-30 | the table keeps one record per address; the new record replaces any earlier one |
| Store.Database.DeleteVerification | user/views.py:72 | exactly that address's record goes |
| Store.Database.SendMail | admin_panel/utils.py:10 | the message is appended to the outbox |
| Routing.FirstProfile | tickets/utils.py:16 | the profile found belongs to the office and has the lowest primary key among that office's profiles; no result means the office has none |
| Routing.Route | tickets/utils.py:12-20 | an unknown category or an empty office name means no routing; an unknown office means no office; otherwise the assignee is the user of `FirstProfile` (the lowest primary key) of the office found by that exact name, or nobody when it has no profile |
| Routing.StaffedOfficeRoutes | tickets/utils.py:15-17 | with unique office names, a category whose office has a staff profile always gets a staff member |
| Routing.CategoryMapKeys | tickets/utils.py:4-10 | the literal has five keys, one of them "Office of Student Serviceswelfare"; "welfare" is not a key; lost-and-found goes to the Principal Office |
| Routing.WelfareUnmapped | tickets/utils.py:8-9 | a welfare ticket is never routed |
| Routing.IntendedWelfareRoutes | tickets/utils.py:8-9 | the corrected table sends welfare to the Guidance Office and agrees with the written one on every other key |
| Routing.AssignOfficeAndStaff | tickets/utils.py:3-20 | the ticket's assignee follows `Route`, and the ticket is saved only when an office was found; otherwise the database is unchanged |
| TicketViews.UserActionsDoNotStamp | tickets/views.py:35-66 | none of the user's own history actions stamps the ticket as a staff note |
| TicketViews.OwnedRow | tickets/views.py:23 | the ticket found has that key and belongs to the requester; no result means no such owned ticket |
| TicketViews.TicketList | tickets/views.py:7-19 | each bucket is newest first |
| TicketViews.TicketListBuckets | tickets/views.py:8-12 | a ticket is listed iff it is the requester's stored ticket, and it is listed in the bucket of its status |
| TicketViews.TicketListPartition | tickets/views.py:10-12 | the three buckets together hold the requester's tickets exactly as often as they are stored |
| TicketViews.TicketDetail | tickets/views.py:22-25 | absent exactly when the requester owns no such ticket; otherwise that ticket and its history entries, newest first |
| TicketViews.DetailHistoryExact | tickets/views.py:24 | an entry is shown iff it is stored and linked to that ticket |
| TicketViews.CleanTicketForm | tickets/forms.py:5-8 | the form is valid iff the title is non-empty and at most 200 characters, the description is non-empty and the category is a declared choice; the cleaned title and description are the stripped input and the category is the submitted one |
| TicketViews.CreateTicket | tickets/views.py:28-40 | a valid form saves one ticket owned by the requester and appends one linked "Ticket created by user" entry; an invalid form changes nothing |
| TicketViews.UpdateTicket | tickets/views.py:56-74 | not found and invalid change nothing; an update changes only title, description and category (and `updated_at`) and appends one linked "Ticket updated by user" entry |
| TicketViews.DeleteTicketView | tickets/views.py:42-53 | not found changes nothing; otherwise a detached "Ticket deleted by user" entry with the title is recorded first, then the ticket is deleted |
| TicketForms.ChoiceTablesDistinct | tickets/forms.py:12-17 | no choice table of the forms repeats a code, so every label lookup is unambiguous |
| TicketForms.UrgencyCodes | tickets/forms.py:242-246 | the accepted urgency codes are exactly low, medium and high |
| TicketForms.FormatDate | tickets/forms.py:222 | `%Y-%m-%d` is ten characters: four digits that read back as the year, a dash, two digits that read back as the month, a dash, two digits that read back as the day |
| TicketForms.FormatDateInjective | tickets/forms.py:222 | two valid dates are formatted alike only when they are the same date |
| TicketForms.FormatDateTime | tickets/forms.py:154 | `%Y-%m-%d %H:%M` is the formatted date, a space, two digits that read back as the hour, a colon and two digits that read back as the minute |
| TicketForms.CleanTechnical | tickets/forms.py:11-27 | valid iff title, description and issue type each clean; the values are the stripped inputs and the issue type is a listed code |
| TicketForms.TechnicalSave | tickets/forms.py:29-44 | the metadata is exactly the issue type and its label from the table |
| TicketForms.CleanAcademic | tickets/forms.py:47-73 | valid iff every field cleans, with the program/year at most 50 characters and the inquiry type a listed code |
| TicketForms.AcademicSave | tickets/forms.py:75-93 | the metadata is program/year, inquiry type and its label; the question becomes the description |
| TicketForms.CleanLostFound | tickets/forms.py:96-138 | valid iff every required field cleans; the location is at most 100 characters, the department a listed code, the date and time valid; once the other fields clean, a missing date and time is reported as required and one that is not a valid date and time as invalid |
| TicketForms.LostFoundSave | tickets/forms.py:140-168 | the metadata is department, its label, location and the formatted date and time; the notes are appended after "\n\nNotes: " only when given; a photo replaces the attachment |
| TicketForms.CleanWelfare | tickets/forms.py:171-204 | valid iff the required fields clean and the optional preferred date, when given, is valid; once the other fields clean, a given date that is not valid is reported as invalid |
| TicketForms.WelfareMetadata | tickets/forms.py:212-222 | the metadata holds the contact method and request type with their labels, plus `preferred_date` exactly when a date was given, formatted |
| TicketForms.WelfareSave | tickets/forms.py:206-229 | title, description and the welfare metadata are written; nothing else changes |
| TicketForms.CleanFacilities | tickets/forms.py:232-270 | valid iff every field cleans, with the location at most 100 characters and the issue type and urgency listed codes |
| TicketForms.FacilitiesSave | tickets/forms.py:278-304 | the metadata is location, issue type, urgency and their labels; a photo replaces the attachment |
| TicketForms.Commit | tickets/forms.py:42-44 | with `commit` false nothing is written; with `commit` true the ticket is saved once, hook included |
| Feed.UnreadFeed | tickets/context_processors.py:4-23 | an anonymous request gets an empty list and count 0; otherwise at most five items and a count no smaller than the list |
| Feed.FeedItemsUnread | tickets/context_processors.py:6-9 | every listed notification is one of the requester's unread ones |
| Feed.FeedShape | tickets/context_processors.py:9-14 | the list is newest first and is five long unless fewer are unread; the count is the number of all unread ones |
| Feed.FeedCountZero | tickets/context_processors.py:11-14 | the count is zero iff the requester has no unread notification |
| Feed.FeedMostRecent | tickets/context_processors.py:9 | an unread notification left out of the list is no newer than any listed one |
| TicketTags.AdminNotesCount | tickets/templatetags/ticket_tags.py:6-7 | the count never exceeds the number of history lines |
| TicketTags.NoteLineCounted | tickets/templatetags/ticket_tags.py:7 | a new line about the ticket that contains "Note added by" raises the count by one |
| TicketTags.OtherLineNotCounted | tickets/templatetags/ticket_tags.py:7 | a line about another ticket, or without the marker in any case, leaves the count unchanged |
| TicketTags.LowerCaseMarkerCountedNotStamped | tickets/templatetags/ticket_tags.py:7 | the count ignores case but the note hook does not: a lower-case marker is counted without stamping the ticket |
| TicketTags.ExtractNote | tickets/templatetags/ticket_tags.py:14-19 | a note line with ": " gives the text after the first ": "; any other line is returned unchanged |
| TicketTags.ExtractNoteRoundTrip | tickets/templatetags/ticket_tags.py:14-19 | a head with the marker and no colon, then ": " and a note, gives back exactly the note, even when the note has ": " of its own |
| TicketTags.HasUnreadUpdates | tickets/templatetags/ticket_tags.py:10-11 | the filter answers exactly what the ticket's `has_unread_admin_notes()` answers |
| AdminPanel.OneCategoryPerOffice | admin_panel/utils.py:12-20 | every office lists exactly one category |
| AdminPanel.SharedAndSoleCategories | admin_panel/utils.py:16-19 | lost-and-found belongs to exactly the Principal Office and the Office of Student Services; "general" only to the media office |
| AdminPanel.IntendedRoutingAgreesWithOffices | admin_panel/utils.py:12-20 | each category of the corrected routing table is listed by the office it routes to |
| AdminPanel.RoutingMissesListedCategories | admin_panel/utils.py:18-19 | the joined routing key is listed by no office while the Guidance Office lists welfare; "general" tickets are routed nowhere |
| AdminPanel.StatusSubjectNamesTicket | admin_panel/utils.py:8 | the subject starts "Ticket ", and its digits read back as the ticket id |
| AdminPanel.StatusBodyGreets | admin_panel/utils.py:9 | the body starts by greeting the user by name |
| AdminPanel.StatusBodyNamesTicket | admin_panel/utils.py:9 | the body contains "#" and the ticket number |
| AdminPanel.StatusBodyShowsStatus | admin_panel/utils.py:9 | the body contains the new status in single quotes |
| AdminPanel.StatusEmail | admin_panel/utils.py:4-10 | no mail iff the user opted out; otherwise one message to the user's address alone, with that subject and body |
| AdminPanel.SendTicketStatusEmail | admin_panel/utils.py:4-10 | the outbox grows by that mail, or stays as it was when the user opted out |
| Verification.IsExpired | user/models.py:21-22 | a record expires exactly when strictly more than fifteen minutes have passed since it was created |
| Verification.GenerateCode | user/models.py:14-16 | the code has one decimal digit per draw, each the drawn value |
| Verification.SetPassword | user/models.py:18-19 | the stored password is never the raw text, checks against it, and nothing else of the record changes |
| Verification.CleanCode | user/forms.py:6-11 | the code cleans to the stripped input when that is non-empty and at most six characters |
| Verification.CleanEmail | user/forms.py:27-33 | accepted iff the lower-cased address ends with "@ust-legazpi.edu.ph" and no user has it as user name; a wrong domain is reported as such |
| Verification.PasswordMismatch | user/forms.py:35-41 | "Passwords do not match" only when both passwords are present, non-empty and different |
| Verification.CleanRegistration | user/forms.py:13-41 | valid iff the address is accepted and both password fields are non-empty and equal after stripping; the result is the stripped address and password |
| Verification.Authenticate | user/views.py:106 | a user is returned iff a user with that user name exists and the password checks; it is that user |
| Directory.MakePassword | user/models.py:19 | an encoded password is never the raw text |
| Directory.CheckPasswordExact | user/models.py:18-19 | an encoding accepts exactly the raw password it was made from |
| Directory.FindByUsername | create_staff.py:40 | the user found has that user name; no result means nobody has it |
| Directory.FindByUsernameUnique | create_staff.py:40 | with unique user names, the lookup finds the one user with that name |
| Directory.NormalizeEmail | create_staff.py:46-50 | `normalize_email`: an address without "@" is returned unchanged; otherwise the stripped address keeps everything up to its last "@" and the domain after it is lower-cased |
| Directory.NormalizeUnpadded | create_staff.py:46-50 | for an address with no surrounding white space, the length and the part up to the last "@" are kept and the domain is lower-cased |
| Directory.FullName | admin_panel/utils.py:9 | `get_full_name()`: with no last name it is the first name stripped, with no first name the last name stripped, and two names without surrounding white space are joined by one space; never padded |
| AccountViews.CodeMail | user/views.py:33-39 | the code mail goes to the address alone, with the fixed subject and the code after the fixed prefix |
| AccountViews.PendingRecord | user/views.py:26-30 | the record holds the address, the new code and the time, and never the raw password |
| AccountViews.PendingPasswordChecks | user/views.py:28 | the stored password accepts the registered password and nothing else |
| AccountViews.Register | user/views.py:18-47 | an invalid form writes nothing and keeps the session; a valid one replaces the address's pending record, mails the code and puts the address in the session |
| AccountViews.VerifyDecision | user/views.py:53-93 | no session iff there is no address; each outcome in order of the checks, each as an iff: no record iff the address has no pending record; a bad form iff the code does not clean (with its error); expired iff the form cleans and the record has expired, whatever the code; wrong code iff it has not expired and the code differs; taken iff the code matches and the address is already a user name; verified iff it is not |
| AccountViews.ExpiredBeforeCode | user/views.py:71-76 | once the code form cleans, an expired record ends in `Expired` whatever code was typed, the right one included |
| AccountViews.MailedCodeVerifies | user/views.py:27-83 | the mailed code verifies the address within fifteen minutes, unless the address was taken meanwhile |
| AccountViews.GeneratedCodeCleans | user/forms.py:6-11 | a generated code passes the code field unchanged |
| AccountViews.AccountPasswordAsWritten | user/views.py:78-82 | as written, `create_user` hashes the stored encoding again, so the column accepts exactly that encoding as a password |
| AccountViews.AccountPassword | user/views.py:81 | the corrected column, as the "already hashed" remark means it: it accepts exactly what the pending record's encoding accepts |
| AccountViews.NewAccount | user/views.py:78-82 | the account as written: that id, the address as user name, the normalised address, not staff, and the re-hashed password |
| AccountViews.IntendedAccount | user/views.py:78-82 | the corrected account: the same row with the pending record's encoding as its password |
| AccountViews.VerifyEmail | user/views.py:53-93 | as written: a verification appends the account `create_user` makes, with the re-hashed password, and drops the record; an expiry only drops the record; every other outcome writes nothing |
| AccountViews.VerifyEmailIntended | user/views.py:53-93 | the corrected view: the same outcomes and writes, except that the new account keeps the pending record's encoding |
| AccountViews.LogIn | user/views.py:99-115 | login succeeds iff both fields are non-empty after stripping and a user with that user name accepts the password; it is that user |
| AccountViews.VerifiedAccountLogsIn | user/views.py:78-106 | the account the corrected verification creates opens with the address and password typed at registration |
| AccountViews.AsWrittenAccountRejectsPassword | user/views.py:78-82 | as written, the account accepts only the stored hash as its password, never the registered password |
| AccountViews.AsWrittenAccountLoginFails | user/views.py:78-106 | as written, logging in with the address and password typed at registration is refused as invalid credentials |
| CreateStaff.SeedRows | create_staff.py:14-22 | each seed row has its office name, its address at the university domain and its password |
| CreateStaff.Username | create_staff.py:37 | the user name is a prefix of the address without "@" that is followed by the first "@", or the whole address when it has none |
| CreateStaff.SeedUsername | create_staff.py:37 | for an address built as name "@" domain, with no "@" in the name, the user name is the name |
| CreateStaff.UsernameListDistinct | create_staff.py:15-21 | the seven user names are different and contain no "@" |
| CreateStaff.SeedUsernames | create_staff.py:15-37 | each seed's user name is its listed local part |
| CreateStaff.SeedsDistinct | create_staff.py:15-21 | the seeds' user names are pairwise different |
| CreateStaff.IntendedSeedsDistinct | create_staff.py:15-21 | so are those of the corrected seeds |
| CreateStaff.NameFreeAfterDelete | create_staff.py:40-43 | after deleting the user with a name, no user has that name |
| CreateStaff.RemoveNamedUser | create_staff.py:40-43 | the first user with that name, if any, is deleted: every table is then `AfterDeleteUser` of the old ones, or unchanged when nobody has the name; afterwards the name is free, other users stay and no user or profile appears |
| CreateStaff.AddStaffAccount | create_staff.py:46-57 | exactly one new user row, staff, with a fresh id, that name, the normalised address and the hashed password, and exactly one new profile linking it to the office |
| CreateStaff.ReplaceAccount | create_staff.py:40-57 | the named user, if any, is deleted and a staff account of that name is appended with its profile; users, profiles, tickets, notifications and history are what the deletion leaves plus those two rows |
| CreateStaff.SeedOffice | create_staff.py:24-57 | one pass of the script: the office is got or created by name; the same-named user, if any, is deleted with what cascades from it; the new staff account and its profile are the only rows added |
| CreateStaff.CreateStaffAccounts | create_staff.py:24-57 | after the script every seed has its office, its staff account and its profile; earlier offices are kept and new ones are seed offices; every user is an old one or a seed's account, every profile an old one or a seed's; old users no seed names and their profiles are kept; the users deleted are exactly the old users a seed names, and tickets, notifications and history are as deleting them leaves them |
| CreateStaff.SeededRegistrarUnrouted | create_staff.py:15 | when every office has a seed's name, an academic ticket finds no office, because routing asks for the name with U+2019 |
| CreateStaff.SeedAsWritten | create_staff.py:14-57 | the script as written, run on an empty database, leaves academic tickets with no office |
| CreateStaff.IntendedSeedsStaffEveryCategory | create_staff.py:14-57 | after the corrected script every category of the corrected routing table reaches a staff member |
| CreateStaff.SeedIntended | create_staff.py:14-57 | the corrected script, run on an empty database, staffs every corrected routing category |
| DeleteStaff.ProfileUsers | delete_staff.py:11-12 | the users of the profiles, one per profile, in order |
| DeleteStaff.DeletedUsers | delete_staff.py:13 | deleting users one by one removes exactly the user rows with those ids, in order |
| DeleteStaff.DeletedProfiles | delete_staff.py:13 | likewise only the profiles of those users go |
| DeleteStaff.AllStaffGone | delete_staff.py:11-14 | once every profile's user is deleted, no profile is left, and the users left are exactly those without a profile |
| DeleteStaff.DeleteProfileUser | delete_staff.py:12-13 | one pass of the loop deletes the profile's user |
| DeleteStaff.DeleteStaffAccounts | delete_staff.py:10-17 | the count is the number of profiles read up front; the tables are those after deleting each profile's user in turn |
| DeleteStaff.ClearStaff | delete_staff.py:10-17 | afterwards no staff profile is left, exactly the users without one remain, and the count is the number of profiles |
| Text.Strip | user/forms.py:18-25 | Python's `strip()`, with white space as `str.isspace` has it (ASCII and Unicode): the slice of the input that starts where its leading white space ends and is followed only by white space, with no white space at either of its ends; an unpadded input comes back unchanged |
| Text.StripSplit | user/forms.py:18-25 | white space, then a text without white space at its ends, then white space, strips to exactly that text |
| Fields.CleanCharField | tickets/forms.py:63-66 | a required `CharField` is valid iff its stripped value is non-empty and within the maximum length; the value is the stripped input; empty input is reported as required |
| Fields.CleanOptionalCharField | tickets/forms.py:122-125 | an optional `CharField` is valid iff its stripped value is within the maximum length; the value is the stripped input |
| Fields.CleanChoice | tickets/forms.py:19 | a `ChoiceField` is valid iff the value is non-empty and a code of its list; the value is kept as submitted |
| Choices.Lookup | tickets/forms.py:19 | the membership test is true iff the code is one of the list's codes |
| Choices.Label | tickets/forms.py:36 | `dict(CHOICES)[code]` is a label paired with that code in the list, and the only one when codes are distinct |
| Text.BeforeFirst | create_staff.py:37 | `split("@")[0]`: the text before the first occurrence, or all of it |
| Text.NatToString | admin_panel/utils.py:8 | `str(n)` is a non-empty string of digits that starts with 0 only for 0 |
| Text.NatToStringRoundTrip | admin_panel/utils.py:8 | the digits of `str(n)` read back as `n` |
| Text.Lower | tickets/templatetags/ticket_tags.py:7 | lower-casing keeps the length and maps each character by ASCII lower-casing |
| Text.ContainsImpliesLowerContains | tickets/templatetags/ticket_tags.py:7 | a case-sensitive match is also a case-insensitive one |

## Left out

- Rendering, templates, redirects, flash messages and GET requests are not modelled; only the data each view computes or writes is.
- The mail backend, `settings.EMAIL_HOST_USER` and `DEFAULT_FROM_EMAIL` are not modelled: mail is appended to an outbox, and sending cannot fail.
- The random draws of `generate_code` are a parameter, and the clock is a parameter `now`.
- Sessions are reduced to the `email` key. `login()`, `logout()` and `logout_view` are not modelled, because they only change the session.
- `@login_required` and the admin views' `user_passes_test` are not modelled: the requester is a parameter.
- URL configuration, admin_panel/views.py and dashboard/views.py are plumbing and are not modelled.
- When several fields of a form are invalid, Django reports all of them. The model reports the first one only.
- File uploads are references only. Their contents, storage and validation are not modelled.
- `EmailField` syntax validation is not modelled, and neither is Unicode normalisation of user names. Lower-casing is ASCII only (white space, by contrast, is the full `str.isspace` set).
- A form's date or date-time arrives already split into its fields: none when the input is empty, and fields that do not form a valid date when it does not parse. Month lengths are not checked, so 31 February counts as a valid date.
- TicketForms.FormatDate: years below 1000 are zero-padded to four digits, as `%Y` is in current CPython; older CPython on glibc prints them unpadded.
- Verification.IsExpired: compares integer microseconds; time zones are not modelled.
- TicketTags.HasUnreadUpdates: `has_unread_admin_notes()` is not part of this model, so it is a parameter.
- AdminPanel.StatusEmail: the user's `profile.email_notifications` flag is a parameter, because the profile model is not part of this model.
- The staff scripts' progress messages (`print`) are not modelled.
- AccountViews.VerifyDecision: its `Taken` outcome stands for the `IntegrityError` that `create_user` raises when the address is already a user name. The model writes nothing in that case.
- Store.Database.CreateHistory: the stamp re-saves the stored row, whereas tickets/signals.py:74-75 re-saves the in-memory `instance.ticket`; if that object's status or assignee differed from the stored row, the pre-save hook would add a notification. Every modelled caller passes an action without the marker (TicketViews.UserActionsDoNotStamp), so none reaches that case.
- `Notification.user`: tickets/models.py declares no `user` field on Notification, yet tickets/signals.py and tickets/context_processors.py create and filter notifications by user. The model gives it one, and assumes its on-delete rule is CASCADE, so deleting a user deletes the notifications addressed to them.
- Office, StaffProfile and UserProfile come from user/models.py, which declares only EmailVerification. Their shape is inferred from use: a profile has a user and an office, and deleting the user deletes the profile. The database invariant also asks that office names be unique, since `Office.objects.get(name=…)` in tickets/utils.py would raise `MultipleObjectsReturned` otherwise, and that a user have at most one staff profile; those duplicate cases are excluded rather than modelled.

## Findings

| source | as written | input that shows it | evidently intended | confidence | as-written member | corrected member |
|---|---|---|---|---|---|---|
| tickets/utils.py:8-9 | no comma after 'Office of Student Services', so Python joins it with 'welfare' into the key 'Office of Student Serviceswelfare' | a ticket with category `welfare` | welfare tickets go to the Guidance Office | high; not executed | Routing.WelfareUnmapped | Routing.IntendedWelfareRoutes |
| create_staff.py:15 | the seeded office is "Registrar's Office" with an ASCII apostrophe, while routing looks up "Registrar’s Office" (U+2019) by exact name | run the script on an empty database, then route an `academic` ticket | academic tickets reach the registrar's staff | high; not executed | CreateStaff.SeedAsWritten | CreateStaff.SeedIntended |
| user/views.py:78-82 | `create_user(password=verification.password)` hashes a value that `set_password` already hashed | register with password p, verify, log in with p | the new account accepts p | high; not executed | AccountViews.AsWrittenAccountLoginFails | AccountViews.VerifiedAccountLogsIn |
