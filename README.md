# Helpdesk core in Dafny

A model of the core of a Flask helpdesk for an IT support office. Users open
tickets in an area. A distributor assigns each ticket at random to a
technician whose technical profile matches the ticket's category. Technicians,
area chiefs ("jefes de área") and admins then move the ticket between
`Abierto`, `En Proceso` and `Cerrado` and set its priority. Admins maintain
the organisation: areas, their chiefs, and which technicians and categories
belong to which area. Technicians and users have passwords and 24-hour reset
tokens. The browser scripts filter ticket tables, count the visible rows,
export the table as CSV and check the ticket form before submission.

The model has these modules:

| module | file | models |
|---|---|---|
| `Strings` | `strings.dfy` | The Python `str` and JavaScript `String` operations the code relies on. |
| `Models` | `models.dfy` | The table rows and the unique constraints the model classes declare. |
| `Credentials` | `credentials.dfy` | The password and reset-token rules. |
| `TechnicianAccount`, `UserAccount` | `accounts.dfy` | The credential methods of the two account classes. They assign fields in place. |
| `TicketDistributor` | `distributor.dfy` | `distribute_ticket` and `get_technician_list`. |
| `TicketRoutes` | `tickets.dfy` | The ticket routes: permission and validity rules as functions, and the ticket table as `TicketStore`. |
| `AdminRoutes` | `admin.dfy` | The admin routes over the technicians, categories and areas tables (class `Organisation`). |
| `Config` | `config.py` choices, in `config.dfy` | The base directory and the database URI. |
| `Display`, `Dashboard`, `MainScript` | `display.dfy`, `dashboard.dfy`, `mainscript.dfy` | The browser scripts. |

**Principal.** The session becomes an explicit `Principal` with these fields:
- role
- id
- `is_jefe_area`
- `managed_area_id`
- technical profile

**Tables and commits.** Tables are maps from primary key to row. A commit is
modelled as the new map being kept. A route that fails before its commit
leaves the map as it was.

**Inputs.** These are parameters:
- form fields: `None` when absent
- time: an integer count of seconds
- bcrypt's `hashpw` and `checkpw`
- the issued token
- the index `random.choice` draws
- `isDateInRange`
- the environment

`distribute_ticket` is a function of its inputs, so it never changes the
technician list.

## Model

| member | source | states |
|---|---|---|
| TicketDistributor.Available | app/utils/ticket_distributor.py:10 | The candidates are exactly the technicians whose profile equals the ticket's profile, and no more of them than the input has. |
| TicketDistributor.AvailableKeepsOrder | app/utils/ticket_distributor.py:10 | The filter keeps input order: filtering a concatenation concatenates the filtered parts. |
| TicketDistributor.DistributeTicket | app/utils/ticket_distributor.py:8-16 | The result is None exactly when no technician has the ticket's profile. Otherwise it is one of the technicians, and its profile equals the ticket's. |
| TicketDistributor.EveryMatchReachable | app/utils/ticket_distributor.py:10-13 | Every matching technician is the pick for some draw of `choice`. |
| TicketDistributor.MissingProfileIsSupport | app/utils/ticket_distributor.py:9 | A ticket without a 'profile' key is routed exactly like one whose profile is 'soporte-tecnico'. |
| TicketDistributor.TechnicianList | app/utils/ticket_distributor.py:19-21 | There is one `{id, name, profile}` record per technician, in order, with the profile taken from `technical_profile`. |
| TicketDistributor.DistributedFromStaff | app/utils/ticket_distributor.py:10-21 | Distributing over the technicians table picks an existing technician with the ticket's profile. It returns None exactly when no listed technician has that profile. |
| TicketDistributor.DistributedOverTable | app/utils/ticket_distributor.py:10-21 | When the list covers the whole technicians table, each technician once, the distributor finds nobody exactly when no technician of the table has the ticket's profile. |
| TicketRoutes.ViewAccess | app/routes/tickets.py:165-199 | An admin gets an updatable view, and so does a chief whose area contains the ticket. Any other technician sees exactly the tickets assigned to them and the unassigned tickets of their profile, and may update only the assigned ones. A user sees exactly their own tickets, read-only. |
| TicketRoutes.ViewUpdateAgrees | app/routes/tickets.py:170-221 | Whenever the view page offers updates, `update_status` accepts the caller. |
| TicketRoutes.UpdateStatusIgnoresRoleOfId | app/routes/tickets.py:188-214 | The assigned-technician clause compares ids only. A user-role session whose id equals the technician's id may update the status, although its view is read-only. |
| TicketRoutes.NewTicket | app/routes/tickets.py:58-87 | Creation succeeds exactly when the area exists and the chosen category exists, is active and belongs to that area. A missing area gives `NotFound`. An area without an active category gives `NoActiveCategories`. Any other refusal is `InvalidCategory`. The new ticket is `Abierto`, unassigned and without a solution. It belongs to the caller and takes its profile from the category. Its priority comes from the form, or `baja` when the form has none. |
| TicketRoutes.CreationPriorityUnchecked | app/routes/tickets.py:83 | The creation priority is not checked, so a new ticket can hold a priority outside the four that `update_priority` accepts. |
| TicketRoutes.CreationNotices | app/routes/tickets.py:99-126 | The notices the route is meant to send (see Findings for what the code as written sends). At most three notices. The requester is notified exactly when they exist with an e-mail. The assigned technician is notified exactly when they exist with an e-mail. The area chief is notified exactly when the chief exists, has an e-mail and is not the assigned technician. |
| TicketRoutes.CreationNoticesInOrder | app/routes/tickets.py:99-126 | The notices come in the code's order: requester, then technician, then chief, with no kind twice. |
| TicketRoutes.CreationNoticeRecipients | app/routes/tickets.py:99-126 | Every creation notice carries the new ticket's id. The requester's goes to the requester's e-mail and names the assigned technician, or "No asignado". The technician's goes to the assigned technician's e-mail. The chief's goes to the chief's e-mail and names the area. |
| TicketRoutes.CreationNoticesAsWritten | app/routes/tickets.py:99-126 | As written, the e-mails sent are the intended notices up to the first one whose `EmailService` method is missing, so only the requester's can go out. The block raises exactly when the intended notices go further. |
| TicketRoutes.NoticeBlockRaises | app/routes/tickets.py:110-126 | As written, the block raises whenever the assigned technician has an e-mail, or nobody is assigned and the area's chief has one. The technician or chief e-mail the intended notices contain is never sent. |
| TicketRoutes.ChiefHearsOfUnassigned | app/routes/tickets.py:119-126 | An existing chief with an e-mail is always notified about an unassigned ticket. |
| TicketRoutes.StatusUpdate | app/routes/tickets.py:207-239 | The checks run in the code's order, each outcome stated as an if-and-only-if. `ClosedTicket`: a technician acting on a closed ticket. `Forbidden`: otherwise, a caller without permission. `InvalidStatus`: otherwise, a status outside the three. `SolutionRequired`: otherwise, a close without a solution. Success in every remaining case. Only status and solution change, and a closed ticket holds a non-empty solution. |
| TicketRoutes.AdminSetsAnyStatus | app/routes/tickets.py:230-239 | Statuses have no order. An admin may set any of the three from any status, reopening closed tickets included. |
| TicketRoutes.ClosedIsFinalForTechnicians | app/routes/tickets.py:207-209 | A technician-role caller can change nothing on a `Cerrado` ticket. |
| TicketRoutes.AssignedTechnicianTakesTicket | app/routes/tickets.py:212-232 | The assigned technician can move an open ticket to `En Proceso`. |
| TicketRoutes.SolutionNoticeFor | app/routes/tickets.py:241-255 | The solution e-mail goes out exactly when the ticket has a truthy requester id naming a user with an e-mail. It goes to that e-mail and carries the stored solution. |
| TicketRoutes.PriorityUpdate | app/routes/tickets.py:276-298 | Succeeds exactly for an admin or an area chief with one of `baja`, `media`, `alta`, `maxima`. It changes only the priority. It is `Forbidden` exactly when the caller lacks that permission, and `InvalidPriority` exactly when a permitted caller gives another value. |
| TicketRoutes.AssignedTechnicianCannotReprioritise | app/routes/tickets.py:276-288 | Being the assigned technician, without being a chief, never allows a priority change. |
| TicketRoutes.Distributed | app/routes/tickets.py:92-97 | The technician picked for a profile exists and has that profile. Nobody is picked exactly when no technician of the table has it. |
| TicketRoutes.CreatedByArea | app/routes/tickets.py:53-129 | A rejected creation stores nothing and sends nothing. An accepted one stores exactly one new ticket, as NewTicket describes. It is assigned to a technician of its profile, and left unassigned exactly when the technicians table has none. The notices are those of CreationNotices for the stored ticket. |
| TicketRoutes.CreateByAreaAsWritten | app/routes/tickets.py:88-95 | As written: an accepted ticket is stored and committed, then the distributor call fails. The ticket stays unassigned, no notice is sent and the request ends in a server error. |
| TicketRoutes.AsWrittenLeavesTicketUnassigned | app/routes/tickets.py:88-126 | Whenever a technician has the ticket's profile and the requester has an e-mail, the code as written leaves the ticket unassigned and sends nothing, while the intended creation assigns it and notifies. |
| TicketRoutes.CreateByAreaMissingSenders | app/routes/tickets.py:53-129 | With the distributor call repaired but the missing e-mail methods still called, the tables end as intended. The e-mails are a prefix of the intended ones. The route ends in a server error exactly when the intended notices go further, and otherwise behaves exactly as intended. |
| TicketRoutes.AssignedCreationFails | app/routes/tickets.py:92-117 | When every technician has an e-mail, a creation that assigns a technician ends in a server error there, and the technician's e-mail, which the intended creation sends, never goes out. |
| TicketRoutes.TicketStore.CreateByArea | app/routes/tickets.py:53-129 | The table and the returned result and notices are those of CreatedByArea over the table before the call. |
| TicketRoutes.TicketStore.UpdateStatus | app/routes/tickets.py:203-268 | Unknown id: `NotFound`. Otherwise the outcome is StatusUpdate's, with all its if-and-only-if cases, and the table changes only on success. A close without a solution returns before the commit and leaves the stored ticket unchanged. Only a successful close produces the solution notice. |
| TicketRoutes.TicketStore.UpdatePriority | app/routes/tickets.py:272-300 | Unknown id: `NotFound`. Otherwise the outcome is PriorityUpdate's, and the table changes only on success. |
| TicketRoutes.TicketStore.DeleteTicket | app/routes/tickets.py:304-313 | A non-admin is refused before the lookup. An admin removes exactly the named ticket, or gets `NotFound`. |
| AdminRoutes.RelinkedTechnicians | app/routes/admin.py:366-384 | After the relink, the area's technicians are exactly the submitted ids that exist. Those who left the area have no area. Submitted technicians from other areas move in. Only `area_id` changes. |
| AdminRoutes.RelinkedCategories | app/routes/admin.py:406-424 | The same set replacement on the categories' `area_id`. |
| AdminRoutes.RelinkIdempotent | app/routes/admin.py:366-384 | Submitting the same selection twice gives the same table as submitting it once. |
| AdminRoutes.RelinkCurrentMembersIsNoOp | app/routes/admin.py:370-384 | Submitting exactly the area's current members changes nothing. |
| AdminRoutes.RelinkKeepsAreaRefs | app/routes/admin.py:373-384 | If every stored `area_id` names an existing area before a relink to an existing area, it still does afterwards. |
| AdminRoutes.Toggled | app/routes/admin.py:256 | Toggling negates `active` and changes nothing else. |
| AdminRoutes.ToggleTwiceRestores | app/routes/admin.py:256 | Toggling twice restores the category. |
| AdminRoutes.ChiefHandling | app/routes/admin.py:164-175 | Ticking the box with an area makes the technician its chief, unless another existing technician already leads it; then that chief is kept and the warning is shown. Unticking sets the chief of every area the technician leads to none and changes no other area. A ticked box with an empty area changes nothing. A ticked box with a missing area fails. |
| AdminRoutes.ChiefHandlingBreaksOnlySecondLead | app/routes/admin.py:164-177 | Starting from unique chiefs, the chief handling can break chief uniqueness only by making the technician chief of a second area. |
| AdminRoutes.KeptChiefStillCommits | app/routes/admin.py:164-177 | When another existing technician already leads the chosen area, the edit still commits, the areas table is left as it was, and the result reports that the chief was kept. |
| AdminRoutes.EditedRow | app/routes/admin.py:150-162 | The edited row takes the submitted DNI, name, e-mail and profile. Its area is the chosen id, or none when the field is empty. |
| AdminRoutes.Organisation.ManageAreaTechnicians | app/routes/admin.py:361-388 | Unknown area: `NotFound`, nothing changes. Otherwise the two loops leave exactly the RelinkedTechnicians table. The declared unique constraints are kept. |
| AdminRoutes.Organisation.ManageAreaCategories | app/routes/admin.py:401-428 | Unknown area: `NotFound`. Otherwise the two loops leave exactly the RelinkedCategories table. |
| AdminRoutes.Organisation.DeleteArea | app/routes/admin.py:341-357 | Refused while the area has a technician, which is checked first, or a category. It succeeds exactly when the area exists and has neither. Then exactly that area is removed, and stored area references stay valid. |
| AdminRoutes.Organisation.ToggleCategory | app/routes/admin.py:254-260 | The category becomes Toggled of itself, and the new `active` value is reported. Unknown id: `NotFound`. |
| AdminRoutes.Organisation.AddArea | app/routes/admin.py:271-296 | Refused for an empty name, for a name already in use, and (at the commit) for a chief who already leads an area. It succeeds exactly when none of these holds. Then exactly one area is added, with the chosen chief if an id was chosen. |
| AdminRoutes.Organisation.EditArea | app/routes/admin.py:304-333 | Unknown area: `NotFound`. Refused for an empty name, or a name held by a different area. Otherwise the name is replaced. The chief is cleared by "none", kept by an empty value and replaced by an id. The commit fails (`ConstraintViolation`) exactly when the new chief already leads another area. It succeeds exactly when the area exists, the name is non-empty and free, and the edited area keeps chiefs unique. |
| AdminRoutes.Organisation.EditTechnician | app/routes/admin.py:123-184 | Refused, storing nothing, when the technician is unknown, a field is missing, or another technician has the e-mail or DNI. After those checks, the commit fails (`SaveFailed`) exactly when the area field is "none" or the chief handling would fail or break chief uniqueness. It succeeds in every other case. On success the row is EditedRow and the areas follow ChiefHandling. The result says whether an existing chief was kept. The constraints stay valid. |
| Models.LedAreaUnique | app/models/area.py:8-14 | Under the declared chief uniqueness, the area a technician leads (`led_area`) is determined. |
| Credentials.Issued | app/models/technician.py:31-41 | After generation, the issued token checks true exactly before now + 24 h. No other token checks true. |
| Credentials.Cleared | app/models/technician.py:43-45 | After clearing, no token checks true at any time. |
| Credentials.ReissueRevokes | app/models/technician.py:31-39 | Generating a new token revokes the previous one. |
| Credentials.PasswordAccepted | app/models/technician.py:26-29 | A password is accepted only when a hash is stored and the password is non-empty. |
| Credentials.SetThenCheck | app/models/technician.py:22-29 | Setting a password and then checking the same password succeeds when bcrypt verifies its own hash. |
| TechnicianAccount.Technician.SetPassword | app/models/technician.py:22-24 | The stored hash is bcrypt's hash of a non-empty password. An empty or missing password leaves the hash unchanged. |
| TechnicianAccount.Technician.CheckPassword | app/models/technician.py:26-29 | True only with a stored hash and a non-empty password. |
| TechnicianAccount.Technician.GeneratePasswordToken | app/models/technician.py:31-34 | Stores and returns the same token with expiry now + 24 h. Every other token is rejected afterwards. |
| TechnicianAccount.Technician.CheckPasswordToken | app/models/technician.py:36-41 | True only for the stored, non-empty token before its expiry. |
| TechnicianAccount.Technician.ClearPasswordToken | app/models/technician.py:43-45 | Token and expiry become None, and every check is false. |
| UserAccount.User.SetPassword | app/models/user.py:24-26 | As for technicians: an empty or missing password is ignored. |
| UserAccount.User.CheckPassword | app/models/user.py:28-31 | True only with a stored hash and a non-empty password. |
| UserAccount.User.GeneratePasswordToken | app/models/user.py:33-36 | Stores and returns the same token with expiry now + 24 h. Every other token is rejected. |
| UserAccount.User.CheckPasswordToken | app/models/user.py:38-43 | True only for the stored, non-empty token before its expiry. |
| UserAccount.User.ClearPasswordToken | app/models/user.py:45-47 | After clearing, no token checks true. |
| Config.BaseDir | config.py:5-8 | The production directory when it exists, otherwise the configuration file's directory. |
| Config.PathJoin | config.py:34 | `os.path.join`: an absolute second part replaces the first. Otherwise the result starts with the first part and ends with the second, with one separating '/'. |
| Config.DatabaseUri | config.py:27-39 | A relative SQLite URI is rewritten to "sqlite:////" plus the base directory joined with the URI after every "sqlite:///" is removed. Any other non-empty `SQLALCHEMY_DATABASE_URI` is kept as it is. If that variable is empty or unset, a non-empty `DATABASE_URL` is used, and otherwise the default `instance/site.db` under the base directory. |
| Config.RelativeUriRewritten | config.py:31-34 | A relative SQLite URI with no second "sqlite:///" becomes "sqlite:////" followed by the base directory joined with its path. |
| Config.ReplaceRemovesInnerOccurrence | config.py:33 | `replace` removes every "sqlite:///", including one inside the path: for any two pieces free of it, the URI "sqlite:///" + a + "sqlite:///" + b becomes a + b. |
| Config.DefaultInProduction | config.py:5-37 | With neither variable set in production, the URI is "sqlite:////" followed by `/var/www/asistencia-informatica/instance/site.db`. |
| Config.EmptyUriFallsBack | config.py:37 | An empty `SQLALCHEMY_DATABASE_URI` counts as unset, so `DATABASE_URL` is used. |
| Strings.ContainsLower | app/static/js/dashboard.js:46-53 | Lower-casing both sides keeps every occurrence, so a match stays a match. |
| Strings.ReplaceCharRemoves | app/static/js/dashboard.js:111 | `replace(/,/g, ';')` keeps the length and leaves no comma. |
| Strings.JoinSeparatorCount | app/static/js/dashboard.js:114 | Joining n >= 1 parts without commas with ',' yields exactly n - 1 commas. |
| Display.ApplyFilter | app/static/js/dashboard.js:45-62 | After the `forEach`, a row is hidden exactly when it fails the filter. |
| Display.CountVisible | app/static/js/dashboard.js:73 | The count is the number of rows not hidden. |
| Display.ShownCount | app/static/js/dashboard.js:73-76 | The counter equals the number of rows shown. |
| Display.ShownIsSelect | app/static/js/dashboard.js:60-61 | When each row is hidden exactly when it fails the filter, the shown rows are the matching rows, in table order. |
| Dashboard.EmptyFiltersShowAll | app/static/js/dashboard.js:53-58 | With every filter empty, every row is shown. |
| Dashboard.NonEmptyTermsAreExact | app/static/js/dashboard.js:54-57 | A non-empty status, priority, department or technician term is matched only by an attribute exactly equal to it. |
| Dashboard.SearchFindsOccurrence | app/static/js/dashboard.js:36-53 | Search ignores case: any occurrence of the term in the text is a match, whichever side is lower-cased. |
| Dashboard.FilterTickets | app/static/js/dashboard.js:25-76 | Each row is hidden exactly when it fails the conjunction of the six criteria. The counter equals the number of shown rows. |
| Dashboard.FilteredRowsAreMatches | app/static/js/dashboard.js:45-62 | After filtering, a row is shown exactly when it matches all criteria. |
| Dashboard.CsvCellShape | app/static/js/dashboard.js:111-112 | A cell has no comma and is wrapped in double quotes around the trimmed text, so it is two characters longer than that text. Text without a comma is kept verbatim apart from trimming. |
| Dashboard.CsvLines | app/static/js/dashboard.js:103-117 | One header line, then one data line per exported row, in order. |
| Dashboard.DataLineCommas | app/static/js/dashboard.js:110-114 | A data line of n >= 1 cells has exactly n - 1 commas. |
| Dashboard.HeaderCells | app/static/js/dashboard.js:104-106 | The pushed header cells are the trimmed header texts, in order; their join is the header line. |
| Dashboard.RowData | app/static/js/dashboard.js:109-114 | The pushed cells are the row's cells, each quoted and cleaned, in order; their join is the row's data line. |
| Dashboard.ExportCsv | app/static/js/dashboard.js:99-117 | The export is the header line and the data line of every visible row, in table order, joined by newlines. |
| Dashboard.ExportLineCount | app/static/js/dashboard.js:108-117 | The export has one line per visible row plus the header line. |
| Dashboard.UserStatusIgnoresPadding | app/static/js/dashboard.js:208-211 | In the user list the badge is trimmed before the exact comparison. |
| Dashboard.FilterUserTickets | app/static/js/dashboard.js:200-215 | A row is hidden exactly when its text lacks the search term or its trimmed badge differs from a chosen status. |
| MainScript.FilterTickets | app/static/js/main.js:9-22 | A row is hidden exactly when its description lacks the search term, or the badge does not contain a chosen status term. |
| MainScript.StatusMatchesPartOfBadge | app/static/js/main.js:15-18 | The status term only needs to occur inside the badge, not equal it. |
| MainScript.SearchIgnoresBadge | app/static/js/main.js:14-17 | Only the description is searched. |
| MainScript.SubmitAlerts | app/static/js/main.js:43-57 | The short-description alert is raised exactly when the trimmed description has fewer than 10 characters. The category alert is raised exactly when no category is chosen. When both are raised, the description alert comes first. |
| MainScript.BlankFormRaisesBoth | app/static/js/main.js:44-56 | A blank description with no category raises both alerts. |
| MainScript.PaddingDoesNotCount | app/static/js/main.js:44-48 | White space around the description does not count toward the 10 characters. |

## Left out

- **Flask.** Request parsing, `session`, `flash`, redirects, templates, blueprints and the `login_required`/`admin_required` decorators are not modelled. The session is the `Principal` parameter.
- **`is_jefe_area` and `managed_area_id`.** These are read by the ticket routes but set by no login code in the repository. They are modelled as free inputs.
- **SQLAlchemy.** Queries, pagination, counts, the dashboards and list pages are not modelled. Timestamps are not modelled.
- **Commits in `create_by_area`.** The ticket is committed once before distribution and once after. The model has only the final table.
- **Ids.** New primary keys are parameters (`newId`).
- **Outbound e-mail.** Notices are returned as values. Sending, the request failures that `EmailService` catches itself, and logging are not modelled. Calls to e-mail methods that do not exist are modelled; see Findings.
- TicketRoutes.CreationNotices: states how many notices go out, to whom, in which order and for which ticket. It says nothing about the description or the names in the e-mail body, apart from the technician name and the area name.
- **Distributor called with an ORM ticket, missing e-mail methods.** See Findings: as written, creation fails after the first commit, and once that is repaired it fails at the first technician or chief e-mail. `CreatedByArea` and `CreateByArea` model the intended behaviour, passing the ticket's profile as a present 'profile' key and sending every creation notice.
- TicketRoutes.TicketStore.CreateByArea: when a technician is assigned but the requester row is missing, the code reads `user.nombre` and raises. The model emits the notices anyway.
- **Non-numeric ids.** The admin routes parse ids with `int()`, which raises on a non-numeric string. Only numeric ids and the literal "none" are modelled (`Choice`).
- AdminRoutes.Organisation.EditTechnician: the code reports a clash as "e-mail" or "DNI" from the first matching row. When that row is the edited technician itself, the other row's clash surfaces instead as a failed commit. The model refuses every clash with one `DuplicateIdentity` outcome.
- **Declared unique constraints.** These are `areas.name`, `areas.jefe_area_id`, `technicians.dni` and `technicians.email`. They are modelled as enforced when a route commits; `AddArea` and `EditArea` then fail with `ConstraintViolation`. The SQL migration that creates `areas` declares the name unique but not the chief column.
- **Foreign keys.** SQLite does not enforce them by default, so a chief id or area id that names no row is stored as given.
- **Other admin routes.** The admin dashboard, technician creation and deletion, and category creation and editing are not modelled. The technician–category assignment table is modelled only as its uniqueness predicate, since the distributor never reads it.
- **bcrypt, tokens and the clock.** `bcrypt`, `secrets.token_urlsafe` and `datetime.utcnow` are parameters. Integer seconds stand in for `datetime`.
- **Configuration side effects.** In `config.py`, loading the `.env` file is the environment parameter. Directory creation and the other settings are not modelled.
- **Browser scripts.** `isDateInRange` (clock and `setMonth` arithmetic) is a parameter. Event wiring, the Blob download, pagination links and textarea resizing are not modelled.
- Strings.LowerChar: lower-cases ASCII and Latin-1 capitals only, not all of Unicode.
- Strings.IsSpace: covers ASCII white space, NBSP, BOM and the line and paragraph separators, not every Unicode space separator.
- MainScript.SubmitAlerts: counts characters, while JavaScript's `length` counts UTF-16 code units, so characters outside the Basic Multilingual Plane count once here and twice in the browser.
- **Missing elements.** The scripts raise when an element they read is missing: `statusFilter` in the main script, or a row's `.status-badge`. The model assumes the elements exist.

## Findings

| source | as written | input that shows it | evidently intended | confidence | as-written member | corrected member |
|---|---|---|---|---|---|---|
| app/routes/tickets.py:95 | `distribute_ticket(new_ticket)` passes the ORM `Ticket`, and app/utils/ticket_distributor.py:9 calls `ticket.get('profile', …)` on it. That raises `AttributeError` after the commit at line 89. The ticket stays unassigned, no e-mail goes out and the request ends in a server error. | Any valid creation: an existing area and an active category of that area, with a technician of the category's profile and a requester with an e-mail. | Pass the ticket's profile, as `{'profile': new_ticket.profile}`, so that a technician of that profile is assigned. The technician and chief notices also need the two e-mail methods of the next row. | not executed | TicketRoutes.CreateByAreaAsWritten, TicketRoutes.AsWrittenLeavesTicketUnassigned | TicketRoutes.CreatedByArea, TicketRoutes.TicketStore.CreateByArea |
| app/routes/tickets.py:111 | `email_service.send_ticket_assignment_notification` is called here, and `email_service.send_area_ticket_notification` at line 120. app/utils/email_service.py defines neither; its send methods are at lines 86, 108, 134 and 154. Reaching either call raises `AttributeError` after the commits. Only the requester's e-mail has gone out, and the request ends in a server error. | With the distributor call repaired: a creation assigned to a technician who has an e-mail. Or an unassigned creation whose area's chief has an e-mail. | `EmailService` provides both methods, so the technician and the chief are told and the route completes. | not executed | TicketRoutes.CreationNoticesAsWritten, TicketRoutes.CreateByAreaMissingSenders, TicketRoutes.AssignedCreationFails | TicketRoutes.CreationNotices, TicketRoutes.CreatedByArea |
