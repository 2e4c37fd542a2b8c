# Regional tourism platform — booking and content workflow in Dafny

This project models the request handlers of a Flask application that connects
tourists, local guides and administrators. The application keeps four tables:
`users`, `guides` (one profile per guide), `bookings` and `guide_uploads`
(content items). Every route follows the same pattern. It checks the session's
role, checks that a row exists or belongs to the acting user, and then does one
insert, update or delete.

Here the tables are an immutable `Schema.Store`: four sequences in insertion
order plus four auto-increment counters. Each route is a pure function
`(store, session, form inputs) -> Reply(store', outcome)`. Queries return the
rows they would list. The modules follow the application's services:

- `Auth`: the role guard and the two login routes.
- `Accounts`: the three registration routes.
- `Profiles`: the guide profile upsert and the directory of available guides.
- `Bookings`: booking a guide, setting a booking's status, and the dashboards.
- `ContentService`: upload, edit, delete, the guide's own list, the homepage and item details.
- `Admin`: the admin dashboard and user deletion.
- `Uploads`: the image file-name check and the stored image path.
- `Dates`: day ordinals as Python counts them, tied to the calendar.
- `Invariants`: the store invariant holds after every route and along any run of requests.
- `Scenarios`: worked request sequences.
- `Seqs` and `Results`: generic helpers.

The store invariant `Schema.Valid` has four parts:

- ids ascend in insertion order and stay below their counters;
- usernames are unique across all roles;
- each user id has at most one profile;
- no profile names an id that has not been issued yet.

"Newest first" (`ORDER BY created_at DESC`) is modelled as reverse insertion
order. Because ids ascend, it is also descending id order.

Some behaviours of the code are easy to miss; the model follows the code:

- `/register` gives a new guide the languages "Hindi, English". `/register/guide` defaults to "Hindi, English, Santali".
- An upload whose file name is not accepted is not an error. The item is stored with an empty image path.
- Any text is accepted as a booking status. There is no transition check.
- Deleting a user id that does not exist still reports success.
- The guide dashboard uses an inner join to the tourist, so a deleted tourist's bookings disappear from it. The tourist dashboard uses a left join. The admin dashboard joins both ends.
- An item's details are "not found" when its owner's user row is gone.
- No route creates an admin session. Admin sessions are taken as given.

## Model

| member | source | states |
|---|---|---|
| Auth.Guard | app.py:11-25 | no user in the session gives LoginRequired; a session with another role gives WrongRole; otherwise the page runs with the session's user id |
| Auth.Login | app.py:85-150 | a success means a user with that username, role and plaintext password exists, and the session then holds exactly that user's id, username, role and full name; a failure leaves the session unchanged with InvalidCredentials; with no account of that role the login fails |
| Auth.LoginSucceedsIff | app.py:96-104 | with unique usernames, the login succeeds if and only if a user with that username, role and password exists, and the session then names that user |
| Auth.LoginSessionOk | app.py:100-104 | a login only ever puts a user id the store has issued into the session |
| Uploads.LastIndexOf | app.py:39 | the position found holds a dot with no dot after it; there is none exactly when the name has no dot |
| Uploads.AllowedFileIff | app.py:32-39 | a file name is accepted if and only if it has a dot and the dot-free text after its last dot, lower-cased, is png, jpg, jpeg or gif |
| Uploads.LastDotUnique | app.py:39 | any dot that has no dot after it is the last dot |
| Uploads.AllowedFileNonEmpty | app.py:738 | an accepted file name is never empty, so the route's separate empty-name test never changes the result |
| Scenarios.UpperCaseExtensionAccepted | app.py:39 | the extension is compared after lower-casing, so "photo.PNG" is accepted |
| Scenarios.OnlyLastExtensionCounts | app.py:39 | only the text after the last dot counts, so "image.png.exe" is refused |
| Uploads.AcceptedImagePath | app.py:553-561 | an image path is produced exactly when an image with an accepted name came with the form, and it is "uploads/" + timestamp + sanitised name |
| Dates.NextDayOrdinal | app.py:398-399 | the calendar day after a date has the next ordinal, across month and year ends and leap days |
| Dates.YearLength | app.py:398-399 | a year adds 366 days to the ordinal when it is a leap year and 365 otherwise |
| Dates.MonthLength | app.py:398-399 | each month's days run straight into the next month's |
| Dates.LastDateOrdinal | app.py:398-399 | 9999-12-31, the last date Python holds, has ordinal 3652059 |
| Dates.AddDays | app.py:398-399 | stepping a date forward n calendar days gives a valid date whose ordinal is the original ordinal plus n |
| Bookings.Departure | app.py:397-399 | a departure exists exactly when arrival plus the stay falls within Python's date range, and it then differs from the arrival by exactly the stay |
| Bookings.DepartureIsCalendarDate | app.py:398-399 | for a calendar arrival date and a stay of n days, the departure is the ordinal of the date n calendar days later |
| Bookings.BookGuide | app.py:373-436 | outside the tourist role nothing changes; a departure out of range gives DateOutOfRange; an id that is not a guide user gives InvalidGuide; any refusal leaves the store unchanged; otherwise exactly one booking is appended, owned by the session's tourist, for that guide, pending, carrying the form's trip with defaults, departing arrival + stay; no other table or counter changes |
| Bookings.UpdateBookingStatus | app.py:504-540 | succeeds if and only if the session is a guide owning a booking with that id; otherwise AccessDenied (or the guard's error) and the store unchanged; on success only the matching booking's status changes, to any given text |
| Bookings.StatusUpdateChangesOneBooking | app.py:515-522 | on a valid store a successful update rewrites exactly the one booking with that id, and only its status |
| Bookings.TouristBookings | app.py:323-328 | lists exactly the bookings of that tourist |
| Bookings.GuideBookings | app.py:449-452 | lists exactly that guide's bookings whose tourist still exists |
| Bookings.BookingListsNewestFirst | app.py:325-327 | on a valid store both booking lists are in strictly descending id order, newest first |
| Bookings.TouristDashboard | app.py:303-333 | refused exactly when the guard refuses; shows the available-guide directory and exactly the acting tourist's bookings |
| Bookings.GuideDashboard | app.py:438-456 | refused exactly when the guard refuses; shows exactly the acting guide's bookings whose tourist still exists |
| Profiles.UpdateGuideProfile | app.py:458-502 | outside the guide role nothing changes; with a profile, the five fields of the acting guide's profile are overwritten, its availability is kept, and every other profile is unchanged; without one, exactly one available profile is appended; nothing outside the guides table changes |
| Profiles.UpdateGuideProfileIdempotent | app.py:473-489 | submitting the same profile form twice gives the same store and outcome as submitting it once |
| Profiles.ProfileAfterUpdate | app.py:473-489 | on a valid store, after the update the acting guide has exactly one profile and it carries the submitted fields |
| Profiles.AvailableGuides | app.py:316-321 | every listed pair is a guide user and that user's available profile |
| Profiles.AvailableGuidesComplete | app.py:316-321 | with unique user ids, every available profile of a guide user is listed |
| Accounts.CreateAccount | app.py:183-203 | a username taken under any role gives DuplicateUsername with the store unchanged; otherwise exactly one user with the next id and the form's fields is appended, plus exactly one available profile for that id when a profile is given; bookings and uploads never change |
| Accounts.Register | app.py:158-211 | "admin" gives AdminRegistration and any role other than tourist or guide gives InvalidUserType, both with the store unchanged; tourist or guide with a taken username gives DuplicateUsername with the store unchanged; success happens exactly for tourist or guide with a free username and appends exactly one user row with the next id, that role, and the form's username, password, full name, phone and email; a tourist leaves the profiles and their counter unchanged; a guide also gets exactly one profile with General Tourism, 1 year, "Hindi, English", Ranchi District, 2000.00, available; bookings and uploads never change |
| Accounts.RegisterTourist | app.py:214-249 | succeeds exactly when the username is free, adding exactly one tourist user and changing nothing else; otherwise DuplicateUsername with the store unchanged |
| Accounts.RegisterGuide | app.py:252-301 | succeeds exactly when the username is free, otherwise DuplicateUsername with the store unchanged; on success exactly one guide user with the next id and the form's account fields and exactly one available profile for it with the next profile id are appended, the profile carrying the form's guide fields or General Tourism, 1, "Hindi, English, Santali", Ranchi District, 2000.00; both counters advance by one and nothing else changes |
| Accounts.CreateAccountKeepsUsernamesUnique | app.py:184-192 | registration keeps usernames unique across all roles |
| ContentService.UploadContent | app.py:542-578 | outside the guide role nothing changes; otherwise exactly one item is appended, owned by the acting guide, with the given text and location default; its image path names the saved image exactly when an accepted image came with the form and is empty otherwise |
| ContentService.EditContent | app.py:693-776 | succeeds if and only if the session's guide owns an item with that id and type, title and description are non-empty; otherwise NotFoundOrDenied or MissingFields with the store unchanged; on success only the matching item changes: its text is overwritten, a missing location becomes empty, and its image path changes only for an accepted image |
| ContentService.OwnedRowUnique | app.py:709-712 | on a valid store the ownership lookup finds the one row with that id |
| ContentService.EditChangesOneRow | app.py:734-767 | on a valid store a successful edit rewrites exactly one row; without an accepted image that row keeps its own image path |
| ContentService.ContentForEdit | app.py:709-783 | returns the item exactly when the session's guide owns it; otherwise NotFoundOrDenied or the guard's error |
| ContentService.DeleteContent | app.py:799-845 | succeeds if and only if the session's guide owns an item with that id; otherwise the store is unchanged; on success exactly the matching rows are gone and nothing outside guide_uploads changes |
| ContentService.DeleteRemovesExactlyOne | app.py:832-835 | on a valid store a successful delete removes exactly the one row with that id and keeps the others in order |
| ContentService.MyContent | app.py:666-690 | lists exactly the acting guide's items |
| ContentService.MyContentNewestFirst | app.py:678-682 | on a valid store the guide's list is newest first |
| ContentService.HomeFeed | app.py:56-82 | at most twelve items, each an upload owned by a guide user |
| ContentService.HomeFeedNewestFirst | app.py:67-74 | on a valid store the homepage is in strictly descending id order |
| ContentService.HomeFeedSize | app.py:73 | the homepage shows twelve items, or all published items when there are fewer |
| ContentService.HomeFeedIsNewest | app.py:67-74 | on a valid store every published item left off the homepage is older than every item shown |
| ContentService.ContentDetails | app.py:635-664 | a found item has that id and comes with its owner's user row; a missing item gives NotFound |
| ContentService.ContentDetailsFoundIff | app.py:642-657 | on a valid store the details are found if and only if the item exists and its owner's user row still exists |
| Admin.DeleteUser | app.py:614-633 | outside the admin role nothing changes; otherwise success, the users are exactly those without that id, and bookings, profiles and content are untouched |
| Admin.DeleteUserRemovesAtMostOne | app.py:624 | on a valid store a deletion removes the one user with that id, keeping the others in order, or changes nothing when there is none |
| Admin.FilterKeepsUsernamesUnique | app.py:624 | removing users keeps usernames unique |
| Admin.AdminDashboard | app.py:580-612 | refused exactly when the guard refuses; lists every user, exactly the bookings whose tourist and guide both exist, and exactly the items whose owner exists |
| Admin.AdminDashboardNewestFirst | app.py:590-606 | on a valid store the users, the bookings and the content items on the admin dashboard are each in strictly descending id order, newest first |
| Invariants.RegisterPreservesValid | app.py:183-201 | `/register` keeps the store invariant, including unique usernames |
| Invariants.RegisterTouristPreservesValid | app.py:229-240 | `/register/tourist` keeps the store invariant |
| Invariants.RegisterGuidePreservesValid | app.py:272-292 | `/register/guide` keeps the store invariant, including one profile per user |
| Invariants.BookGuidePreservesValid | app.py:406-426 | booking keeps the store invariant |
| Invariants.UpdateBookingStatusPreservesValid | app.py:515-523 | a status update keeps the store invariant |
| Invariants.UpdateGuideProfilePreservesValid | app.py:473-492 | with a session the store issued, the profile upsert keeps at most one profile per user |
| Invariants.UploadContentPreservesValid | app.py:563-570 | uploading keeps the store invariant |
| Invariants.EditContentPreservesValid | app.py:709-769 | editing keeps the store invariant |
| Invariants.DeleteContentPreservesValid | app.py:813-835 | deleting content keeps the store invariant |
| Invariants.DeleteUserPreservesValid | app.py:620-626 | deleting a user keeps the store invariant |
| Invariants.StepPreservesValid | app.py:85-859 | every request keeps the store invariant, and the session names only an issued user id |
| Invariants.RunPreservesValid | app.py:85-859 | any sequence of requests from a valid store keeps it valid |
| Invariants.UsernamesUniqueFromEmpty | app.py:183-192 | starting from empty tables, no sequence of requests produces two users with one username |
| Scenarios.RegisterThenLogin | app.py:88-109 | a registered tourist logs in with their password, the session holds their identity, a wrong password or role fails, and their dashboard lists no bookings |
| Scenarios.DuplicateUsernameRefused | app.py:183-187 | registering a taken username again, even as a guide, is refused with the store unchanged |
| Scenarios.GuideDefaultProfile | app.py:197-201 | a guide registered through `/register` gets General Tourism, 1, "Hindi, English", Ranchi District, 2000.00, available |
| Scenarios.FiveDaysAfterJuneFirst | app.py:398-399 | 2024-06-01 plus five days is 2024-06-06 |
| Scenarios.BookingScenario | app.py:406-424 | a tourist's booking of a guide from 2024-06-01 for five days is pending and departs 2024-06-06; another guide's status update is refused and the booking stays pending |

## Left out

- Database connections (app.py:41-54), cursors and commits are left out. Each route is one atomic transition. A failed connection or a database error leaves the store unchanged. Registration commits the user and the profile together, so a failure between them rolls both back.
- Flash messages, templates, redirects and JSON bodies are left out. A route's result is `Outcome` (success or an `Error`) or the rows it would list.
- Files on disk are left out: `file.save`, `os.remove`, `os.path.exists` and the upload directory (app.py:36, app.py:559-560, app.py:740-760, app.py:821-830). Only the `image_path` column is modelled.
- ContentService.UploadContent: always succeeds for a guide. A failed `file.save` (app.py:560) is outside any `try`. It ends the request with an error before the insert, so the store would be unchanged. Disk failures are not modelled.
- ContentService.EditContent: never fails on saving the new image. A failed save (app.py:752-760) is a filesystem event. In the application it also comes after the old image file was already removed.
- werkzeug's `secure_filename` and the `datetime.now()` timestamp prefix are opaque inputs (`ImageUpload.safeName`, `stamp`).
- `datetime.strptime` and `int()` (app.py:398-399) are left out. The arrival date arrives as a day ordinal and the stay as an integer. A malformed date or number raises before any write, so the store would be unchanged.
- Dates.AddDays: steps forward only. A negative stay is still handled by `Bookings.Departure` as ordinal arithmetic, but it has no calendar lemma.
- Missing required form fields are left out. Several fields are read as `request.form[...]` rather than `.get`: login (app.py:90-91, app.py:124-125), registration (app.py:161, app.py:173-177, app.py:219-223, app.py:257-261), booking (app.py:381-387) and upload (app.py:547-549). A POST missing one is refused with HTTP 400 before any write, so the store is unchanged. The request types here make those fields mandatory. Fields read with `.get` are `Option`s resolved with the route's defaults.
- Arrival dates outside Python's date range are left out. `strptime` (app.py:398) only yields ordinals in [1, 3652059]. `BookingRequest.arrivalDate` is an unbounded integer, and `Bookings.Departure` also accepts arrivals that cannot arrive. For those arrivals it only checks that the departure falls in range.
- Conversions from form text to numbers are left out: experience, price, group size, and the guide id in a booking. MySQL's coercion of such text is not modelled. Prices are integer hundredths (2000.00 is 200000).
- MySQL collations are left out. MySQL 8's default collation `utf8mb4_0900_ai_ci` compares usernames without regard to case or accents, and older PAD SPACE collations also ignore trailing spaces. The model compares strings exactly. The password comparison happens in Python and is exact, as modelled.
- `created_at` and `upload_date` timestamps are left out. Insertion order stands for them. Rows created within the same second may be ordered either way by the database.
- Schema constraints (UNIQUE, foreign keys, column defaults such as `rating`) are unknown, so the model enforces only the application's own checks. The `rating` column is not modelled.
- Display names that queries join in (guide and tourist names) are not carried. The exceptions are the owner row in `ContentService.ContentDetails` and the user row in `Profiles.AvailableGuides`.
- Pages that only render a form or read-only data are left out: the GET branches of the login and registration routes, the booking form page (app.py:336-369), `/access_denied`, `/debug_guide_profile`, `/all_content` and the old redirect routes. `/logout` clears the session and appears only as `LogoutRequest` in `Invariants.Step`.
- `Invariants.RunPreservesValid` follows one client's session. A session another client holds also names only an issued id, because the user-id counter never decreases.
- static/js/script.js, static/js/guide-dashboard.js and config.py are left out. They hold browser UI code and connection constants.
