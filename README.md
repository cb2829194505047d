# Birthday reminder — a verified model of its core

The birthday reminder keeps a list of people's birthdays. For each user it
shows:

- who celebrates today;
- the single next birthday;
- a short list of upcoming ones;
- a calendar;
- a detail page, a shareable wish page and an edit form for each record.

The server stores the records in a database table. Photos go to an external
image host. This project models the logic under those pages and handlers, in
Dafny, and proves what that logic promises.

- **Dates** (`dates.dfy`): proleptic Gregorian dates with a day number. There
  is a `MakeDate` that rolls an overflowing day into the next month, as the
  JavaScript `Date` constructor does (29 February of a common year becomes
  1 March). There is also day arithmetic (`AddDays`).
- **Recurrence** (`recurrence.dfy`): every age rule the code base carries, the
  next occurrence of a birthday and the days until it. This includes the
  client's age rule, which is one short on the anniversary. It also includes
  the older strict rule, and the older countdown that never moves to next
  year. They are compared by lemmas.
- **Ranker** (`ranker.dfy`): the client home page's ranking and the client
  record list.
  - The ranking covers today's celebrants, the next birthday (stable sort,
    first of ties) and the upcoming window of four with its exclusions.
  - On the record list, add, update and delete wait for the server.
- **LegacyApp** (`legacy_app.dfy`): the older browser-only application.
  - Ids are the largest id plus one.
  - Updates merge fields.
  - The home page has a 30-day window with no year rollover and `canonicalAge`.
  - There is the demo birth-date generator.
  - Delete keeps the local-storage copy in step.
- **DetailViews** (`detail_views.dfy`) covers two pages:
  - The detail page: lookup by route id, "Turning" age, days to go, and the
    WhatsApp greeting with phone cleaning.
  - The public wish page, with the message that links to it.
- **Calendar** (`calendar.dfy`) and **EditForm** (`edit_form.dfy`): the
  calendar's day lookup and popup state, and the edit form. The edit form
  covers the date written for the date input, the prefill, field edits and
  the submitted request.
- **Rows**, **Stores**, **RootServer**, **LiveServer** (`rows.dfy`,
  `stores.dfy`, `root_server.dfy`, `live_server.dfy`): the server's create,
  update and delete handlers.
  - The value the handlers work on holds the rows, the stored photo assets,
    the temporary upload files and the log of effects issued.
  - Each handler is a pure function from the stores before a request to the
    stores after it and the reply.
  - A `Server` class performs the same run step by step on its fields and is
    proved equal to that function.
  - The repository-root `server.js` handlers use a transaction and remove
    photos to undo work. They sit inside a block comment in that file
    (server.js:92-590), and are modelled as written.
  - `server/server.js` holds the live create handler.
  - The upload middleware of both servers is `CloudinaryStorage`. It stores
    an attached photo on the host before the handler runs, and the file's
    path is that photo's URL. `fs.unlinkSync` of a path throws unless it
    names a file on disk (`Stores.OnDisk`), so the lemmas state the outcome
    for a path on disk and for a URL.
  - That middleware stores the photo under the folder `birthday-reminder`,
    so its public id (`req.file.filename`) is `birthday-reminder/<id>`
    (`Stores.StoredId`). The handlers' removals by URL cut only `<id>` out
    of the URL, so they reach the handler's own folderless uploads but never
    a photo the middleware stored.
- **Text**, **Seqs**, **Opt**: the string and array idioms the JavaScript code
  uses inline: digit stripping, number formatting, `split(...)` cutting,
  `filter`, `find`, `slice` and the stable `sort`.

Inputs that come from outside become parameters:

- "today" (one calendar date per computation);
- whether an upload, a database connection or an asset removal succeeds;
- whether BEGIN and the lookup SELECT of an update or a delete succeed (a
  route id that is no number makes the SELECT fail);
- whether the INSERT, UPDATE or DELETE succeeds together with its COMMIT;
- whether the user confirms a dialog;
- error texts from the photo host and the database.

## Model

| member | source | states |
|---|---|---|
| Dates.DaysInMonth | client/src/App.js:140-144 | A month has 28 to 31 days, and 29 exactly for February of a leap year. |
| Dates.MakeDate | client/src/App.js:140-144 | `new Date(y, m, d)`. The result is in year y, and its day number is the first day of month m plus d - 1, so an overflowing day rolls into the next month. A day that exists is kept as given, and the result is never before (y, m, d). |
| Dates.DayNumberOrder | client/src/App.js:146 | Comparing two dates by day number is comparing (year, month, day) lexicographically. |
| Dates.DayNumberInjective | client/src/App.js:159 | Two dates with the same day number are the same date. |
| Dates.AddDays | src/App.js:125-126 | `setDate(getDate() + n)` gives the date whose day number is n more. |
| Recurrence.ClientAge | client/src/App.js:311-328 | 0 without a date. Otherwise it is the age whose birthday fell strictly before today while the next is on or after today, so on the anniversary it is one less than the years elapsed. |
| Recurrence.LegacyAge | src/components/AddBirthday.js:55-67 | The age whose birthday fell on or before today while the next is strictly after today. |
| Recurrence.AgeRulesCompared | src/components/AddBirthday.js:58-66 | The two rules differ only on the anniversary, where the client's is one lower. Both are the year difference or one less. The older one is the full difference exactly when today's (month, day) is not before the birth (month, day). |
| Recurrence.OccurrenceIn | client/src/App.js:140-144 | `new Date(year, month, day)` of the birth's month and day: that date in the given year when it exists, and otherwise (29 February in a common year) 1 March of that year. |
| Recurrence.NextOccurrence | client/src/App.js:180-188 | It is never before today and at most 365 days after. It falls in this year exactly when this year's occurrence is not past, and otherwise in the next year. It is on today exactly when this year's occurrence is today. It has the birth's month and day; for a 29 February birth it is 29 February only when that day is this year's, and 1 March otherwise. |
| Recurrence.NextOccurrenceFirst | client/src/App.js:180-188 | No day from today up to the next occurrence has the birth's month and day (for births other than 29 February), so it is the first such day. |
| Recurrence.Rollover | client/src/App.js:186-188 | An occurrence moved on a year lands after today and within 365 days. |
| Recurrence.TurningIsAgeAtNextOccurrence | client/src/components/BirthdayDetail.js:155 | "Turning" (age + 1) is the age at the next occurrence. The one exception is a 29 February birth seen on 1 March of a common year. |
| Recurrence.DaysUntil | client/src/components/BirthdayDetail.js:100-118 | None exactly without a date. Otherwise the count is 0 to 365, today moved on by the count is the next occurrence, and the count is 0 exactly when this year's occurrence is today. |
| Recurrence.DaysUntilZero | client/src/components/BirthdayWish.js:58-76 | Zero days remain exactly on the anniversary, or for a 29 February birth on 1 March of a common year. |
| Recurrence.DaysUntilThisYear | src/components/UpcomingBirthdays.js:2-8 | The count is positive for a birthday later this year, 0 on the day, and 0 or less for one already past. |
| Recurrence.DaysUntilThisYearReaches | src/components/UpcomingBirthdays.js:2-8 | Today moved on by the count (back, when it is negative) is this year's occurrence. |
| Recurrence.DaysUntilThisYearIgnoresYear | src/components/UpcomingBirthdays.js:5 | The birth year does not affect the count. |
| Recurrence.DaysUntilVariantsCompared | src/components/UpcomingBirthdays.js:4-7 | Where this year's occurrence is not past, the older count equals the client's. Otherwise the client's is larger. |
| Text.DigitsOf | server/server.js:113 | `replace(/\D/g, "")` keeps only digits, in order, each digit as often as in the input. |
| Text.DigitsOfIdempotent | client/src/components/BirthdayDetail.js:45 | Stripping twice is stripping once. |
| Text.DigitsOfDigits | client/src/components/EditBirthday.js:139 | A digit string is unchanged by stripping. |
| Text.NatToString | client/src/components/BirthdayWish.js:51 | The decimal text of n has digits only, no leading zero, and the value n. |
| Text.Pad2 | client/src/components/EditBirthday.js:36-37 | `padStart(2, "0")` of a number below 100 gives two digits with that value. |
| Text.ParseFormatYmd | client/src/components/EditBirthday.js:35-39 | A `year-MM-DD` text reads back as the date it was written from. |
| Text.AfterLast | server.js:385 | `split(c).pop()` holds no `c` and is no longer than the input. |
| Text.BeforeFirst | server.js:385 | `split(c)[0]` holds no `c` and is no longer than the input. |
| Text.AfterLastIsSuffix | server.js:442 | What follows the last `c` ends the text and is preceded there by `c`, unless it is the whole text. |
| Text.BeforeFirstIsPrefix | server.js:544 | What precedes the first `c` begins the text and is followed there by `c`, unless it is the whole text. |
| Text.AfterLastOfSuffix | server.js:385 | For `p + c + d` with no `c` in `d`, what follows the last `c` is `d`. |
| Text.BeforeFirstOfPrefix | server.js:385 | For `d + c + t` with no `c` in `d`, what precedes the first `c` is `d`. |
| Seqs.Filter | client/src/App.js:104-110 | `filter` keeps exactly the elements satisfying the predicate, in order. |
| Seqs.FilterCount | client/src/App.js:303 | Every kept element keeps its multiplicity. Every dropped one has none. |
| Seqs.FindIndex | client/src/components/BirthdayDetail.js:28 | `find` stops at the first element satisfying the predicate, or finds none when no element does. |
| Seqs.Take | client/src/App.js:161 | `slice(0, n)` has min(n, length) elements, each the input's at the same index. |
| Seqs.StableSortCorrect | client/src/App.js:198 | The sort orders by key and permutes its input. Pairs with equal keys keep their input order (`Array.prototype.sort` is stable). |
| Seqs.StableSortHead | client/src/App.js:198-200 | The first sorted pair has the least key and is an input pair, the earliest in input order with that key. |
| Seqs.TakeValuesEarliest | client/src/App.js:161 | Slicing a sorted list keeps an element when fewer than n are kept, or when a kept element has a strictly greater key. |
| Seqs.TakeValuesEarliestBy | client/src/App.js:152-161 | The same for keys computed from the values. |
| Seqs.TakeValuesSortedBy | client/src/App.js:152-161 | The sliced values ascend by key and come from the sorted input. |
| Ranker.TodaysBirthdays | client/src/App.js:99-116 | Exactly the records on today's (month, day), in input order. Each turns `getAge + 1`, which is the full year difference. |
| Ranker.TodaysBirthdaysMembers | client/src/App.js:104-110 | A record is a celebrant exactly when it is in the list and falls on today. |
| Ranker.Keyed | client/src/App.js:178-197 | Each record is paired with the day number of its next occurrence. |
| Ranker.SortKeyed | client/src/App.js:198 | The sorted keyed list is ascending and holds each record with its own key. |
| Ranker.NextBirthdayNone | client/src/App.js:200 | There is no next birthday exactly when no dated record remains once today's celebrants are set aside. |
| Ranker.NextBirthdayChosen | client/src/App.js:168-197 | The chosen record is a dated non-celebrant from the input, with its own next occurrence and days-until. |
| Ranker.NextBirthdayEarliest | client/src/App.js:198-200 | No candidate's next occurrence is earlier. |
| Ranker.NextBirthdayFirstOfTies | client/src/App.js:198-200 | Among tied candidates the first in input order is chosen, and every candidate before it falls strictly later. |
| Ranker.Ids | client/src/App.js:125 | The celebrants' ids, in order. |
| Ranker.ExcludedIdsMembers | client/src/App.js:122-132 | An id is excluded exactly when it is a celebrant's, or, when nobody celebrates, the next birthday's. |
| Ranker.UpcomingSorted | client/src/App.js:134-161 | At most four records, ascending by next occurrence. Each is from the input, dated, not excluded, and its next occurrence is strictly after today. |
| Ranker.WindowSorted | client/src/App.js:152-161 | The sorted, sliced list is ascending and taken from its input. |
| Ranker.UpcomingExclusions | client/src/App.js:122-137 | No upcoming record falls on today or shares a celebrant's id. With nobody celebrating, none shares the next birthday's id. |
| Ranker.WindowIsEarliest | client/src/App.js:152-161 | A record earlier than a listed one is listed, and a list shorter than n holds every record. |
| Ranker.UpcomingIsEarliest | client/src/App.js:134-161 | An eligible record earlier than a listed one is listed. The list is short of four only when it holds every eligible record. |
| Ranker.ReplaceById | client/src/App.js:289-291 | Same length. A record with the id becomes the server's record, and every other record is unchanged. |
| Ranker.RemoveByIdSpec | client/src/App.js:303 | No record with the id is left. Every other record keeps its multiplicity, and the order is kept. |
| Ranker.BirthdayBook.constructor | client/src/App.js:28 | The list starts empty. |
| Ranker.BirthdayBook.AddBirthday | client/src/App.js:231 | On success the server's record is appended at the end. On failure the list is unchanged. |
| Ranker.BirthdayBook.UpdateBirthday | client/src/App.js:289-291 | On success every record with the id is replaced, and the length is kept. On failure the list is unchanged. |
| Ranker.BirthdayBook.DeleteBirthday | client/src/App.js:303 | On success no record with the id remains. On failure the list is unchanged. |
| LegacyApp.MaxId | src/App.js:140 | `Math.max(...ids)` is an id of the list and at least every id. |
| LegacyApp.NewId | src/App.js:138-141 | The new id exceeds every id in use. It is 1 for an empty list, otherwise the largest id plus one. |
| LegacyApp.FormRecord | src/components/AddBirthday.js:38-50 | The form's record carries the strict age rule as `canonicalAge`. |
| LegacyApp.Added | src/App.js:136-144 | The appended record has an unused id and `age` = the year difference. Otherwise it is the submitted record. |
| LegacyApp.AddKeepsIdsDistinct | src/App.js:134-146 | Adding keeps ids pairwise distinct. |
| LegacyApp.MergeLaws | src/App.js:201 | `{...b, ...patch}`: an empty patch changes nothing, and merging twice is merging once. |
| LegacyApp.UpdateById | src/App.js:200-202 | The length is kept. |
| LegacyApp.UpdateByIdSpec | src/App.js:200-202 | Records without the id are identical and records with it are merged. A patch without an id keeps the ids, and applying it twice equals applying it once. |
| LegacyApp.TodaysBirthdays | src/App.js:150-171 | Exactly the records on today's (month, day), in order, each turning `canonicalAge + 1`, with the greeting. |
| LegacyApp.EnteredOnAnniversary | src/App.js:166 | A record entered on its own anniversary is shown turning one more than the years elapsed. |
| LegacyApp.Keyed | src/App.js:181-190 | Each record is paired with the day number of this year's occurrence. |
| LegacyApp.SortKeyed | src/App.js:194 | The sorted keyed list is ascending and holds each record with its own key. |
| LegacyApp.WindowSorted | src/App.js:194-196 | The sorted, sliced list is ascending and taken from its input. |
| LegacyApp.UpcomingSorted | src/App.js:174-197 | At most four input records, ascending. Each lies 1 to 30 days ahead within this calendar year. |
| LegacyApp.WindowIsEarliest | src/App.js:194-195 | A record earlier than a listed one is listed, and a list shorter than n holds every record. |
| LegacyApp.UpcomingIsEarliest | src/App.js:191-195 | A record in the window that is earlier than a listed one is listed. Fewer than four are listed only when every such record is. |
| LegacyApp.UpcomingNoRollover | src/App.js:184-192 | A birthday already past this year, or today, is never listed. |
| LegacyApp.DemoBirthdate | src/App.js:121-131 | The text reads back as year `currentYear - age` with the month and day of today plus `daysToAdd`. |
| LegacyApp.DemoBirthdateToday | src/App.js:33 | With no shift the demo birthday falls on today. |
| LegacyApp.Find | src/components/BirthdayDetail.js:8-12 | No record exactly when no record has the id. Otherwise it is the first record with that id. |
| LegacyApp.RemoveById | src/components/BirthdayDetail.js:30 | No record with the id is left. Every other record is kept, in order. |
| LegacyApp.Book.constructor | src/App.js:100-101 | List and storage start equal. |
| LegacyApp.Book.AddBirthday | src/App.js:133-147 | Appends the added record, keeps storage in step and keeps ids distinct. |
| LegacyApp.Book.UpdateBirthday | src/App.js:199-205 | Replaces the list by its update and writes it to storage. |
| LegacyApp.Book.HandleDelete | src/components/BirthdayDetail.js:22-44 | "Not found" exactly for an unknown id. A declined confirmation changes nothing. Otherwise every record with the id goes, from the list and from storage alike. |
| DetailViews.FindById | client/src/components/BirthdayDetail.js:28 | None for a non-numeric route or an unknown id. Otherwise it is the first record with the id. |
| DetailViews.ShowDetail | client/src/components/BirthdayDetail.js:25-32 | "Not found" exactly when the lookup fails. The days-until is the record's `DaysUntil` from today, so 0 to 365 for a dated record, and "Turning" is the age at the next occurrence (except 29 February seen on 1 March). Without a date it is "Turning 1" and no countdown. |
| DetailViews.WhatsAppWishReading | client/src/components/BirthdayDetail.js:34-75 | Refused exactly for a missing or blank phone. Too short or too long when the digits are not ten. Otherwise the number is "91" and the ten digits, twelve digits in all. |
| DetailViews.WhatsAppWishIgnoresPersonalMessage | client/src/components/BirthdayDetail.js:65 | As written, every greeting carries the fallback line. |
| DetailViews.WhatsAppWishDiffers | client/src/components/BirthdayDetail.js:61-68 | For a clean phone and a personal message, the handler as written and the corrected one send different greetings. |
| DetailViews.GreetingsDiffer | client/src/components/BirthdayDetail.js:61-68 | A personal message other than the fallback line gives another greeting. |
| DetailViews.WhatsAppWishCorrectedUsesPersonalMessage | client/src/components/BirthdayDetail.js:61-68 | Corrected, the greeting carries the record's personal message, and the phone handling is unchanged. |
| DetailViews.CleanPhoneOpensChat | client/src/components/BirthdayDetail.js:45-59 | Ten bare digits open the chat with "91" and those digits, and cleaning again changes nothing. |
| DetailViews.GenerateMessage | client/src/components/BirthdayWish.js:47-55 | The message holds the `/wish/<id>` link and the personal message, or "Wishing you an amazing day!" without one. |
| DetailViews.WishLinkRoundTrip | client/src/components/BirthdayWish.js:51 | The wish link of a record leads back to its id, and the wish page finds a record with that id. |
| DetailViews.ShowWish | client/src/components/BirthdayWish.js:10-14 | The same lookup, "not found", age and countdown as the detail page. |
| Calendar.DateBirthdays | client/src/components/CalendarView.js:10-18 | Exactly the records on the date's (month, day), with the year ignored, as a subsequence of the list. |
| Calendar.DateBirthdaysAreTodays | client/src/components/CalendarView.js:11-17 | On any day the calendar lists the records the home page would celebrate with that day as today, in the same order. |
| Calendar.MarkedIffSomeRecord | client/src/components/CalendarView.js:24 | A day has records exactly when some record falls on it. |
| Calendar.AfterClick | client/src/components/CalendarView.js:39-77 | As written, the popup closes exactly when it was open and the click is outside it; otherwise it stays as it was. |
| Calendar.AfterClickFixed | client/src/components/CalendarView.js:73-77 | Corrected, the popup closes on a click outside or on ×, and only a click on the popup itself keeps it. |
| Calendar.CloseButtonKeepsPopup | client/src/components/CalendarView.js:73-77 | As written, a click on × never closes the popup. |
| Calendar.CloseButtonCloses | client/src/components/CalendarView.js:73-77 | Corrected, × closes the popup, and every other click does what it did. |
| Calendar.CalendarPage.constructor | client/src/components/CalendarView.js:7 | No popup at first. |
| Calendar.CalendarPage.HandleDateClick | client/src/components/CalendarView.js:20-37 | The popup opens with the day's records exactly when there are some, and closes otherwise. |
| Calendar.CalendarPage.ClosePopup | client/src/components/CalendarView.js:39-44 | A click inside the popup keeps it, and any other click closes it. |
| Calendar.CalendarPage.HandleClick | client/src/components/CalendarView.js:46-77 | A click run through the handlers it reaches leaves the popup as `AfterClick` says. |
| EditForm.FormatDateForInput | client/src/components/EditBirthday.js:29-40 | "" exactly without a date. A date in a year from 0 on is written so that it reads back as that date. |
| EditForm.FormatDateFields | client/src/components/EditBirthday.js:36-37 | The month field is 01 to 12 and the day field 01 to 31. |
| EditForm.Set | client/src/components/EditBirthday.js:126-129 | The named field takes the value, and every other field keeps its own. |
| EditForm.Prefilled | client/src/components/EditBirthday.js:103-124 | Name and photo are copied and the date is written for the input. A missing relationship becomes "Friend". Every other missing field becomes "". |
| EditForm.IsoDate | client/src/components/EditBirthday.js:141 | A value is accepted exactly when it is a valid `YYYY-MM-DD` date, and the result is that day's midnight UTC, `T00:00:00.000Z` appended. |
| EditForm.SubmitRequest | client/src/components/EditBirthday.js:131-153 | An invalid date fails before any request. Otherwise the request carries the route id, the phone as its digits and the ISO date, and every other field as typed. |
| EditForm.EditUnchangedRoundTrip | client/src/components/EditBirthday.js:103-144 | Opening a record with a four-digit year and submitting it unchanged sends the same day back, and the phone as digits. |
| EditForm.EditPage.constructor | client/src/components/EditBirthday.js:49-62 | The form starts empty, with relationship "Friend". |
| EditForm.EditPage.Prefill | client/src/components/EditBirthday.js:103-124 | A known route id fills the form from its record. Otherwise the form stays. |
| EditForm.EditPage.HandleChange | client/src/components/EditBirthday.js:126-129 | One field takes the typed value. |
| EditForm.EditPage.HandleSubmit | client/src/components/EditBirthday.js:131-144 | Returns the submitted request or the invalid-date failure. |
| Rows.CheckLoggedIn | server.js:165-182 | Refused with "Not logged in" exactly when the `user-id` header is missing or empty. Otherwise the header is the user id. |
| Rows.ProcessPhoneNumber | server/server.js:112-118 | Accepted exactly when the text has ten digits, and the result is those digits. Otherwise the error is "Phone number must be 10 digits". |
| Rows.ProcessPhoneNumberIdempotent | server/server.js:112-118 | An accepted number is accepted again unchanged. |
| Rows.Truncate | server/server.js:161 | `substring(0, n)` is a prefix of length min(n, length). |
| Rows.ClipOrNull | server/server.js:162 | `s?.substring(0, n) \|\| null` is the first min(n, length) characters of s, and present exactly when s is non-empty; a non-empty text within the limit is kept whole. |
| Rows.OrNull | server/server.js:168 | `s \|\| null` is present exactly when s is non-empty. |
| Rows.InsertValues | server/server.js:160-174 | The name is its first 100 characters and a non-empty relationship its first 50 (else "Friend"). Nickname (100), zodiac (20) and favourite colour (50) are cut the same way or NULL when empty. The phone is the digits, the other empty texts become NULL, the photo is the given URL and the owner is the user. |
| Opt.OrElse | client/src/components/EditBirthday.js:108 | `value \|\| fallback` is the value when it is present and non-empty, and the fallback otherwise. The UPDATE's `COALESCE(value \|\| null, old)` of a text column is the same (server.js:458). |
| Rows.CoalesceNull | server.js:459 | `COALESCE(value \|\| null, old)` of a nullable column: the value when it is present and non-empty, and the old value otherwise. |
| Rows.UpdatedRow | server.js:454-487 | Column by column, for all eleven body fields: a non-empty field replaces its column and an empty or absent one keeps the stored value (the phone included, so the phone falls back to the old one). A photo is replaced only by a non-empty URL, and the owner never changes. |
| Rows.UpdateLaws | server.js:457-486 | An empty update leaves the row as it was, and the same update twice equals it once. |
| Rows.PublicIdShape | server.js:385 | The public id has no '/' or '.', and it begins the URL's last segment, which ends the URL. |
| Rows.PublicIdOfAssetUrl | server.js:442 | For `<prefix>/<id>.<format>` (or without the format) the public id is `<id>`. |
| RootServer.PostOutcome | server.js:300-400 | It succeeds (201) exactly when the request is logged in, valid, has its photo uploaded if one came, connects and inserts. Any other reply leaves the table as it was. The store invariant is kept, and the status is one of 201, 400, 401, 500. |
| RootServer.Rejected | server.js:307-327 | A validation failure removes the file and adds no row or asset. It answers 400 with its error, or 500 when the file is not on disk and `fs.unlinkSync` throws. |
| RootServer.StoreOutcome | server.js:344-391 | 201 exactly when connected and inserted. A failed insert leaves the table unchanged. |
| Stores.Received | server.js:117-126 | The upload middleware adds exactly the attached photo's asset, under its folder (`StoredId`), and changes no row, id or file on disk. |
| Stores.StoredIdNotPublicId | server.js:120 | An id under the middleware's folder never equals an id cut from a URL, which holds no '/'. |
| RootServer.PutOutcome | server.js:402-516 | 200 exactly when logged in, connected, the lookup succeeds, the row is the user's and the UPDATE succeeds. Otherwise the table is unchanged. The ids are always kept. |
| RootServer.FindOutcome | server.js:414-513 | 200 exactly when the lookup succeeds, the row is the user's and the UPDATE succeeds; 404 exactly when the lookup succeeds and finds no row of the user; a failed lookup is rolled back with 500. Otherwise the table is unchanged. |
| RootServer.UpdateOutcome | server.js:436-503 | 200 exactly when the UPDATE succeeds. The row keeps its id and owner. A failure leaves the table unchanged. |
| RootServer.DeleteOutcome | server.js:518-569 | 204 exactly when logged in, connected, the lookup succeeds, the row is the user's and the DELETE succeeds. Then the row is gone, and otherwise the table is unchanged. |
| RootServer.NotLoggedInChangesNothing | server.js:171-177 | Without a user id every handler answers 401 and changes nothing. |
| RootServer.PostRejectsInvalid | server.js:307-327 | Missing fields or a phone without ten digits give a 400 with its own error when no file came or the file is on disk. A photo the middleware stored arrives as a URL, so `fs.unlinkSync` throws and the answer is 500. Either way there is no row, no asset beyond the middleware's (under its folder), and nothing else but removals of the file. |
| RootServer.PostCreatesRow | server.js:330-380 | One row is added under a fresh id with the validated values and the URL of the handler's upload. The middleware's and the handler's uploads come before BEGIN, INSERT, COMMIT. |
| RootServer.PostInsertFailureUndoesUpload | server.js:381-388 | A failed INSERT is rolled back and the handler's photo removed, so only the middleware's copy, under its folder, is added to the assets. |
| RootServer.PostConnectFailureKeepsUpload | server.js:344 | A failed connection leaves both copies of the photo stored with no row. |
| RootServer.PutNotFound | server.js:422-434 | When no row of the user matches: 404, no UPDATE, the table unchanged, and the new photo removed again by `req.file.filename`. |
| RootServer.PutLookupFails | server.js:494-513 | When BEGIN or the lookup fails: ROLLBACK and 500 whoever owns the row, the table unchanged, and the new photo removed again by `req.file.filename`. |
| RootServer.PutUpdatesRow | server.js:436-487 | A successful PUT writes `UpdatedRow` of the stored row, the body and the new photo's URL (or the old URL when none came), and no other row changes. |
| RootServer.PutReplacesPhoto | server.js:437-451 | The row gets the new photo's URL, and the new asset stays. The old photo's removal by the id cut from its URL comes after the upload and before UPDATE, COMMIT; when it succeeds that asset is gone, but a photo an earlier PUT stored under the middleware's folder stays. |
| RootServer.PutUpdateFailureStrandsRow | server.js:494-503 | A failed UPDATE after a new photo leaves the row pointing at its old photo, whose asset was already removed. |
| RootServer.PutEmptyBodyKeepsRow | server.js:457-486 | An update with nothing filled in rewrites the row unchanged. |
| RootServer.DeleteNotFound | server.js:534-539 | When no row of the user matches: 404, and nothing changes but BEGIN. |
| RootServer.DeleteLookupFails | server.js:556-569 | When BEGIN or the lookup fails: ROLLBACK and 500 whoever owns the row, and nothing else changes. |
| RootServer.DeleteRemovesPhotoFirst | server.js:541-555 | The photo's removal, by the id cut from its URL, comes before DELETE and COMMIT, and both the row and that asset are gone. |
| RootServer.DeleteMissesStoredPhoto | server.js:541-555 | A photo a PUT stored under the middleware's folder survives the successful DELETE of its row. |
| RootServer.DeleteTwice | server.js:527-555 | A repeated delete of a deleted row gets 404. |
| RootServer.Server.HandlePost | server.js:300-400 | The run on the fields equals `PostOutcome` and keeps the store invariant. |
| RootServer.Server.Reject | server.js:307-327 | The run equals `Rejected`. |
| RootServer.Server.StoreNew | server.js:344-391 | The run equals `StoreOutcome`. |
| RootServer.Server.HandlePut | server.js:402-516 | The run equals `PutOutcome` and keeps the store invariant. |
| RootServer.Server.FindAndUpdate | server.js:414-503 | The run equals `FindOutcome`. |
| RootServer.Server.HandleDelete | server.js:518-569 | The run equals `DeleteOutcome` and keeps the store invariant. |
| RootServer.Server.RemoveTempFile | server.js:308 | `fs.unlinkSync` removes the file, and throws exactly when no such file is on disk. |
| RootServer.Server.UploadPhoto | server.js:333 | The photo's asset is stored. |
| RootServer.Server.ReceivePhoto | server.js:117-126 | The run equals `Received`: the attached photo is stored under the middleware's folder. |
| RootServer.Server.Discard | server.js:423-429 | `destroy(req.file.filename)` removes the middleware's asset when it succeeds; a failure is only logged. |
| RootServer.Server.TryDestroy | server.js:541-549 | A truthy URL's asset is gone when the removal succeeds, and a failure is only logged. |
| LiveServer.ErrorText | server/server.js:193-198 | A message mentioning "Phone number" passes through. Any other becomes "Failed to create birthday record". |
| LiveServer.PhoneErrorSurfaces | server/server.js:136 | The phone rule's error reaches the client as it is. |
| LiveServer.PostOutcome | server/server.js:121-201 | As written: 201 exactly when logged in, valid, inserted and, if a file came, uploaded with its path on disk. Any other reply leaves the table unchanged. Files on disk only disappear. |
| LiveServer.PostOutcomeFixed | server/server.js:139-147 | With the removal after the upload tolerating a path that is no file: 201 exactly when logged in, valid, uploaded if a file came, and inserted. Any other reply leaves the table unchanged. |
| LiveServer.InsertOutcome | server/server.js:149-180 | 201 exactly when the INSERT succeeds. No asset is ever removed. |
| LiveServer.NotLoggedInChangesNothing | server/server.js:77-83 | Without a user id: 401 and nothing changes. |
| LiveServer.MissingFieldsKeepTempFile | server/server.js:128-133 | Missing fields give 400 with no row and no removal: the files on disk stay, and the assets are only the middleware's addition. |
| LiveServer.BadPhoneIsServerError | server/server.js:136 | A phone without ten digits gives 500 with the phone rule's text, no upload by the handler and no row; only removals of the file follow the middleware's upload. |
| LiveServer.CreateWithPhoto | server/server.js:139-175 | Corrected: a create with a photo uploads it, removes the file, then inserts a row that points at the handler's upload, whether or not the path was on disk. |
| LiveServer.PhotoCreateFails | server/server.js:139-147 | As written: a create with a photo whose path is no file on disk answers 500 with the removal's error text, inserts no row, and leaves both copies of the photo stored. |
| LiveServer.FixedAgreesOnDisk | server/server.js:139-147 | When the path of an attached file is on disk, the corrected handler and the handler as written give the same outcome. |
| LiveServer.InsertFailureKeepsPhoto | server/server.js:181-191 | Corrected: a failed INSERT leaves the photo stored with no row, and the file is removed a second time. |
| LiveServer.Server.HandlePost | server/server.js:121-201 | The run on the fields equals `PostOutcome` and keeps the store invariant. |
| LiveServer.Server.InsertRow | server/server.js:150-198 | The run equals `InsertOutcome`. |
| LiveServer.Server.Cleanup | server/server.js:146 | `fs.unlinkSync` removes the file, and throws exactly when no such file is on disk. |
| LiveServer.Server.UploadPhoto | server/server.js:143 | The photo's asset is stored. |
| LiveServer.Server.ReceivePhoto | server/server.js:20-33 | The run equals `Received`: the attached photo is stored under the middleware's folder. |

## Left out

- Time of day is not modelled; "today" is a calendar date.
  - In the source, `new Date()` is past midnight. So this year's occurrence on today compares as before now and is moved to next year, and `Math.ceil` of the fractional day difference then counts 365 or 366.
  - `Recurrence.NextOccurrence` keeps a same-day occurrence in this year, and `Recurrence.DaysUntil` counts 0 there. Time zones and the UTC reading of `YYYY-MM-DD` strings are not modelled either.
- Parsing of date strings is not modelled: a record's birth date is a parsed date, or None when it is missing or does not parse. A record whose date text is non-empty but invalid passes `!bday?.date` in the source and then sorts with NaN keys; the model treats it as undated.
- `EditForm.IsoDate`: only a valid `YYYY-MM-DD` value is accepted. Other strings that `new Date` might still parse count as invalid.
- `EditForm.FormatDateForInput`: the read-back is stated for years 0 and later only.
- `LegacyApp.DemoBirthdate`: the read-back is stated for years 0 and later only. The sample records built from it (src/App.js:28-97) are not modelled.
- `Ranker.ExcludedIds`: the `undefined` that `console.log` contributes to the excluded ids is left out, because no record id equals it.
- The renaming of server columns into client records (client/src/App.js:67-81, 212-228, 273-287) is not modelled. That covers the default photo URL on add and its absence on update. Each list change takes the record the server returned as a parameter.
- HTTP transport, `encodeURIComponent`, `window.open`, `alert`, navigation, the popup's screen position and the canvas image resizing are I/O or floating point, and are left out.
- Login and registration, the messaging service, and the other endpoints (GET of the list, test routes) are not part of this model.
- The photo host and the database are abstract stores, and concurrency between requests is not modelled. Each request is one sequential run. ROLLBACK is taken to succeed; a failing ROLLBACK inside a catch block would replace the error but not the 500.
- The upload middleware's failure path (the `MulterError` handler and the 2 MB limit) is not modelled.
- `Stores.StoredId`: the middleware's public id is modelled as the folder, a slash and the public id cut from the photo's URL. The time-stamped name the middleware chooses is not modelled beyond that.
- `LiveServer.Server.Cleanup`: the catch block's `req.file.path` guard is modelled as a file having come.
- `Rows.Truncate`: lengths count Unicode characters. JavaScript's `substring` counts UTF-16 code units, so a text with characters outside the Basic Multilingual Plane is cut at another place, possibly inside a surrogate pair.
- `Rows.ClipOrNull`: the same character-count simplification as `Rows.Truncate`.
- `Rows.InsertValues`: the column limits of 100, 50 and 20 are counted in Unicode characters, not UTF-16 code units, as for `Rows.Truncate`.
- `RootServer.DeleteOutcome`: on a 404 the transaction that the handler leaves open is shown only as the BEGIN in the log. The client connection's release is not modelled.
- The root `server.js` deletes and updates `WHERE id = $1` without the user id. The model applies them to the row found for the user, which is the same row.
- `RootServer.PutOutcome`: PUT does not check the phone, and the model keeps it that way (`Rows.UpdatedRow` stores the text as sent).

## Findings

| source | as written | input that shows it | evidently intended | confidence | as-written member | corrected member |
|---|---|---|---|---|---|---|
| client/src/components/BirthdayDetail.js:65 | The WhatsApp greeting reads `birthday.personalized_message`, a property client records never carry (they carry `personalizedMessage`, client/src/App.js:79), so every greeting uses the fallback line. | A record with `personalizedMessage` "Proud of you" and phone "9876543210": the greeting says "May your year be filled with happiness!" instead. | Read `personalizedMessage`, as the wish page's `generateMessage` does (client/src/components/BirthdayWish.js:52). | high (not executed) | DetailViews.WhatsAppWishDiffers | DetailViews.WhatsAppWishCorrectedUsesPersonalMessage |
| server/server.js:146 | `fs.unlinkSync(req.file.path)` runs on the path the upload middleware gives the file. That middleware is `CloudinaryStorage` (server/server.js:20-33), so the path is the photo's URL, no file, and the call throws. The catch block answers 500 after the photo was stored twice, and no row is inserted. | A logged-in create with name, birth date, a ten-digit phone and an attached photo: 500 "Failed to create birthday record", two stored copies of the photo, no record. | Remove the temporary file only when there is one, or ignore the failure as the catch block does for its own removal, so the create inserts its row and answers 201. | high (not executed) | LiveServer.PhotoCreateFails | LiveServer.CreateWithPhoto |
| client/src/components/CalendarView.js:75 | The × button calls `closePopup`, whose target lies inside `.birthday-popup`, so it returns at once; the popup's own handler then stops the click before the container's `closePopup`. | Click a marked day, then click × on its popup: the popup stays open. | × closes the popup. | high (not executed) | Calendar.CloseButtonKeepsPopup | Calendar.CloseButtonCloses |
