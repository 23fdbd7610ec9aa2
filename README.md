# ort-admin-service, modelled in Dafny

ort-admin-service is the administration panel of a test-preparation
platform (Next.js, Prisma, PostgreSQL). Staff log in, then manage users and
trial tests; images go to object storage and a key/value table holds the
site settings. This project models the core of that service:

- the user API: paged, filtered and ordered listing; creation with unique
  usernames, phones and Telegram ids; the username and phone availability
  checks (`UsersApi`, `UserChecks`);
- the settings table and its upserting PUT (`Settings`);
- the trial-test API: creation with the truthiness guard, and listing newest
  first (`TrialTests`);
- the image upload route, with its content-type test and stored name
  (`Upload`);
- the login route, the login page and the request middleware that guards
  every page (`LoginRoute`, `LoginPage`, `Middleware`);
- the user form and the trial-test form, with their loading, validation,
  availability checks, cleaning and submit logic (`UserModal`, `TestModal`);
- the users page: its fetch, paging bar, page input, sort toggles and delete
  flow (`UsersPage`);
- the toast notification context, which suppresses duplicates and expires
  toasts (`Toasts`).

Database tables are sequences of rows. A route is a function from the
table and the request to the new table and the response. A failing database
call, a body that is not JSON and an exception are `None` inputs (or, where
the table is still needed afterwards, the flag `lookupFails`) that lead to
the route's 500 answer. React components whose state changes step by
step are classes: every handler is a method that `modifies` the component
and states its whole new state. Each submit handler is tied to a pure
`Submitted` function, and the properties are proved about that function.

Everything the code does not itself compute is passed in as a parameter:

- the bcrypt comparison, the JWT signer and the hash of a new password;
- the current time and the random toast-id suffix;
- the phone-number formatter;
- the URL the storage helper returns, and the set of user ids the foreign
  key refers to;
- the production flag.

JavaScript's `trim`, `parseInt`, `toLowerCase` (on ASCII, the Cyrillic capitals U+0400 to U+042F and the Kyrgyz Ң, Ү, Ө), `split('.').pop()`,
`startsWith`, `includes` and decimal printing are modelled in `JsText`.
`Sorting` holds a stable insertion sort used for every `orderBy`.

## Model

| member | source | states |
|---|---|---|
| UsersApi.ParseRole | src/app/api/users/route.ts:11 | a role parameter names an enum value exactly when it is one of the four role names |
| UsersApi.Matching | src/app/api/users/route.ts:18-30 | the kept rows are exactly the rows whose fullname or username contains the search text case-insensitively and whose role matches the filter; each matching row is kept as many times as the table holds it, every other row not at all |
| UsersApi.MatchingConcat | src/app/api/users/route.ts:18-30 | the `where` filter keeps table order: the matches of two tables laid end to end are the matches of the first followed by those of the second |
| UsersApi.PrecedesIsTotalPreorder | src/app/api/users/route.ts:33-48 | each of the five orderings (newest first, points up/down, fullname up/down) is a total preorder |
| UsersApi.OrderedIsSortedMatches | src/app/api/users/route.ts:54-76 | the listed rows are the matching rows, each once (same multiset), sorted by the requested ordering |
| UsersApi.DefaultOrderIsNewestFirst | src/app/api/users/route.ts:33-48 | a missing or unknown sortBy orders newest first |
| UsersApi.CeilDiv | src/app/api/users/route.ts:82 | pages is the least count with pages * limit >= total |
| UsersApi.Skip | src/app/api/users/route.ts:15 | the offset is never negative for page and limit of at least 1 |
| UsersApi.PageSlice | src/app/api/users/route.ts:74-75 | the page holds min(limit, rows left after skip) rows, the ordered rows from index skip on, without their password |
| UsersApi.ListUsers | src/app/api/users/route.ts:7-94 | a failing count or findMany, or a role outside the enum, gives 500 "Failed to fetch users"; otherwise total, pages, page, limit and the page's rows as above |
| UsersApi.SliceHoldsRow | src/app/api/users/route.ts:74-75 | row index skip + i appears at position i of its page |
| UsersApi.SliceNonEmptyIff | src/app/api/users/route.ts:74-75 | a page is non-empty exactly when its offset is below the row count |
| UsersApi.RowIsOnItsPage | src/app/api/users/route.ts:13-15 | every matching row is on page row / limit + 1 at position row % limit |
| UsersApi.PagesBoundary | src/app/api/users/route.ts:82 | pages 1..pages are non-empty and every later page is empty |
| UsersApi.FifteenUsersTwoPages | src/app/api/users/route.ts:13-15 | fifteen matches, ten per page: total 15, 2 pages, the second page holds five |
| UsersApi.OrderedLength | src/app/api/users/route.ts:51 | the total equals the number of matching rows |
| UsersApi.TotalIgnoresPaging | src/app/api/users/route.ts:51 | two queries with the same search and role report the same total whatever their page, limit or order |
| UsersApi.CreateUser | src/app/api/users/route.ts:96-144 | a body that is not JSON or has no username, and a failing username lookup, give 500; otherwise 400 exactly when the username is taken; every other error is 500 "Failed to create user"; success exactly when the username, phone and Telegram id are free and a password is given; one row is appended with the hash and the body's columns; errors leave the table unchanged |
| UsersApi.CreateKeepsColumnsUnique | src/app/api/users/route.ts:101-135 | creating a user keeps id, username, phone and Telegram id unique |
| UsersApi.SecondCreateRefused | src/app/api/users/route.ts:101-111 | submitting the same username twice: the second request gets 400 and the table keeps one row with it |
| UserChecks.FirstWithUsername | src/app/api/users/check-username/route.ts:19-26 | the row found holds the username and is not the excluded user; none found means every holder is the excluded user |
| UserChecks.FirstWithPhone | src/app/api/users/check-phone/route.ts:20-30 | the same for the phone text, compared exactly |
| UserChecks.CheckUsername | src/app/api/users/check-username/route.ts:6-39 | an empty username gives 400, a failed lookup 500; otherwise available exactly when every row holding the name is the excluded user |
| UserChecks.CheckPhone | src/app/api/users/check-phone/route.ts:6-42 | the same for the phone number |
| UserChecks.ExcludingOwnId | src/app/api/users/check-username/route.ts:23 | the decimal id the form sends is read back by parseInt as that same id |
| UserChecks.OwnUsernameAvailable | src/app/api/users/check-username/route.ts:19-32 | a user editing their own record whose username nobody else holds sees it as available |
| UserChecks.NoExclusionCountsEveryone | src/app/api/users/check-username/route.ts:19-32 | without excludeUserId a username is available exactly when no row holds it |
| UserChecks.CreatedUsernameIsTaken | src/app/api/users/check-username/route.ts:28-32 | after a user is created its username is reported as taken |
| UserChecks.AvailableUsernameIsNotRefused | src/app/api/users/route.ts:101-111 | a username the check reports free is not refused as a duplicate by POST |
| UserChecks.PhoneComparedExactly | src/app/api/users/check-phone/route.ts:20-23 | the same number with spaces counts as a different phone |
| Settings.Lookup | src/app/api/settings/route.ts:25-29 | a found value is stored under the key; none found means no row has the key |
| Settings.Upsert | src/app/api/settings/route.ts:25-29 | the key then holds the value, every other key keeps its value, and a row is added only for a new key |
| Settings.UpsertKeepsUnique | src/app/api/settings/route.ts:25-29 | an upsert keeps keys unique |
| Settings.UpsertSameValue | src/app/api/settings/route.ts:27 | upserting the value a key already holds changes nothing |
| Settings.KeptMembers | src/app/api/settings/route.ts:24-32 | the upserts that succeed are exactly the submitted entries whose key does not fail |
| Settings.KeptAll | src/app/api/settings/route.ts:24-32 | when no upsert fails every entry is applied |
| Settings.KeptDistinct | src/app/api/settings/route.ts:24 | the applied entries still have distinct keys |
| Settings.UpsertAllStores | src/app/api/settings/route.ts:24-32 | after the upserts every entry's key holds its value |
| Settings.UpsertAllFrame | src/app/api/settings/route.ts:24-32 | keys not named in the body keep their previous value or absence |
| Settings.UpsertAllUnique | src/app/api/settings/route.ts:24-32 | the upserts keep keys unique |
| Settings.UpsertAllHeld | src/app/api/settings/route.ts:24-32 | upserting values every key already holds changes nothing |
| Settings.UpsertAllIdempotent | src/app/api/settings/route.ts:24-32 | applying the same body twice equals applying it once |
| Settings.SettingsStore.Put | src/app/api/settings/route.ts:19-41 | a malformed body gives 500 and changes nothing; otherwise the non-failing entries are upserted, success exactly when none fails, 500 otherwise |
| Settings.SettingsStore.Get | src/app/api/settings/route.ts:6-17 | every stored row, or 500 when the read fails |
| Settings.PutStoresEveryKey | src/app/api/settings/route.ts:24-34 | every entry whose upsert did not fail is stored under its key |
| Settings.PutKeepsOtherKeys | src/app/api/settings/route.ts:24-34 | keys the body does not name, or whose upsert failed, keep their value |
| Settings.PutKeepsKeysUnique | src/app/api/settings/route.ts:24-34 | a PUT, successful or not, keeps keys unique |
| Settings.PutIdempotent | src/app/api/settings/route.ts:24-34 | two successful PUTs of the same body leave the table of one |
| TrialTests.CreateTrialTest | src/app/api/trial-tests/route.ts:6-39 | a non-JSON body gives 500; 400 exactly when a required field is falsy; a body that passes that guard but that the database refuses (a wrong JSON type, a type other than free/paid, a count outside 32 bits, an unknown creator) gives 500 "Failed to create trial test"; success exactly when every field is present and storable; the new row has status created, the body's values and a null creator exactly when the creator is falsy; errors change nothing |
| TrialTests.ZeroCountsRejected | src/app/api/trial-tests/route.ts:18-20 | zero minutes or zero questions counts as missing: 400, nothing created |
| TrialTests.FalsyCreatorStoredAsNull | src/app/api/trial-tests/route.ts:30 | a falsy creator id is stored as null and never reaches the foreign key |
| TrialTests.ExampleCreated | src/app/api/trial-tests/route.ts:22-34 | the free 60-minute, 20-question example is stored as one created row without creator |
| TrialTests.NewerFirstIsTotalPreorder | src/app/api/trial-tests/route.ts:44 | newest-first is a total preorder |
| TrialTests.ListTrialTests | src/app/api/trial-tests/route.ts:41-59 | a failed read gives 500; otherwise every row, each once |
| TrialTests.ListNewestFirst | src/app/api/trial-tests/route.ts:43-44 | the list is ordered by creation time, newest first |
| TrialTests.CreatedTestListedFirst | src/app/api/trial-tests/route.ts:22-44 | a test created after every existing one heads the next listing |
| Upload.ExtensionOfDotted | src/app/api/upload/route.ts:37 | the extension is the text after the last dot, lower-cased |
| Upload.ExtensionWithoutDot | src/app/api/upload/route.ts:37 | a name without a dot is its own extension, lower-cased |
| Upload.ExtensionShape | src/app/api/upload/route.ts:37 | an extension holds no dot and is lower case |
| Upload.StoredNameKeepsExtension | src/app/api/upload/route.ts:37-39 | reading the extension back from the stored name gives the original's |
| Upload.StoredNameShape | src/app/api/upload/route.ts:39 | the stored name is "image-", the timestamp in decimal, a dot and the extension |
| Upload.PostUpload | src/app/api/upload/route.ts:10-66 | no form gives 500, no file 400, a non-image type 400, each without storing; an image is stored under the new name with its type, and the answer is the URL or 500 |
| Upload.PhotoExample | src/app/api/upload/route.ts:37 | "Photo.JPG" has extension "jpg" |
| LoginRoute.FindByUsername | src/app/api/auth/login/route.ts:22-24 | the found row holds the username; none found exactly when no row holds it |
| LoginRoute.Login | src/app/api/auth/login/route.ts:10-73 | non-JSON or a failed lookup gives 500, missing credentials 400; success exactly when the row exists and the password matches its hash; the body carries the user without password, the cookie carries the signed token |
| LoginRoute.CookieAttributes | src/app/api/auth/login/route.ts:57-63 | the cookie is auth-token, httpOnly, sameSite strict, path "/", secure in production, and lives as long as the token |
| LoginRoute.MissingCredentialsNeverLookedUp | src/app/api/auth/login/route.ts:15-20 | missing credentials get 400 whatever the table or hash function |
| LoginRoute.UnknownUserNeverCompared | src/app/api/auth/login/route.ts:26 | for an unknown username the hash comparison is never consulted |
| LoginRoute.UnknownUserLikeWrongPassword | src/app/api/auth/login/route.ts:28-33 | an unknown username and a wrong password get the same answer |
| LoginRoute.LogsInTheRow | src/app/api/auth/login/route.ts:22-54 | with unique usernames a matching password logs in exactly the row holding the username |
| LoginPage.DisplayedError | src/app/login/page.tsx:72-85 | success shows no error, a throw the connection message, a refusal a non-empty message; the two older messages become the generic wording |
| LoginPage.RouteErrorsShownAsSent | src/app/login/page.tsx:72-78 | every refusal the current login route sends is shown as sent |
| LoginPage.LoginForm.constructor | src/app/login/page.tsx:46-52 | the page starts with empty fields, no error, not loading, the password hidden, at /login |
| LoginPage.LoginForm.HandleSubmit | src/app/login/page.tsx:55-88 | the fields are sent; an accepted reply navigates to the dashboard; the error becomes the displayed error; loading ends |
| LoginPage.LoginForm.HandleChange | src/app/login/page.tsx:90-97 | one field takes the value and the error is cleared |
| LoginPage.LoginForm.TogglePasswordVisibility | src/app/login/page.tsx:99-101 | the password visibility flips and nothing else changes |
| LoginPage.AcceptedLoginOpensDashboard | src/app/login/page.tsx:81-82 | a correct login sent from the page ends on the dashboard with no error |
| Middleware.Decide | src/middleware.ts:4-21 | no cookie off /login redirects to /login; a cookie on /login redirects to /dashboard; otherwise the request passes exactly when cookie presence and being off /login agree |
| Middleware.NoRedirectLoop | src/middleware.ts:9-18 | following a redirect with the same cookies is never redirected again |
| Middleware.OnlyPresenceCounts | src/middleware.ts:5 | any two cookie values, even empty, give the same decision |
| Middleware.Route | src/middleware.ts:34 | the middleware acts only on matched paths; others pass through |
| Middleware.ApiPathsSkipped | src/middleware.ts:34 | /api/users, /apiary and /public/logo.png are never redirected |
| Middleware.FaviconWildcard | src/middleware.ts:34 | the unescaped dot also lets /favicon-ico through |
| Middleware.PagesGuarded | src/middleware.ts:9-12 | /dashboard without the cookie redirects to /login, and /login is matched |
| Middleware.LoggedInSession | src/middleware.ts:15-20 | after a successful login the cookie opens /dashboard and /login sends back to it |
| Toasts.IdTimeOfMakeId | src/contexts/ToastContext.tsx:34 | the time read back from a toast id is the time it was built from |
| Toasts.Without | src/contexts/ToastContext.tsx:57-59 | the remaining toasts are exactly those with another id |
| Toasts.WithoutConcat | src/contexts/ToastContext.tsx:58 | removal keeps the order of the other toasts |
| Toasts.WithoutAbsent | src/contexts/ToastContext.tsx:58 | removing an id nobody has changes nothing |
| Toasts.ShownEffect | src/contexts/ToastContext.tsx:32-55 | a recent identical toast leaves the list as it was; otherwise exactly one toast with the new id is appended |
| Toasts.RepeatWithinWindowSuppressed | src/contexts/ToastContext.tsx:38-46 | the same message and type shown twice within 3 s appears once |
| Toasts.ExpireUndoesShow | src/contexts/ToastContext.tsx:52-54 | the timer of a shown toast removes exactly that toast when its id was fresh |
| Toasts.WithoutIdempotent | src/contexts/ToastContext.tsx:57-59 | removing twice equals removing once |
| Toasts.ToastProvider.constructor | src/contexts/ToastContext.tsx:30 | the provider starts with no toasts |
| Toasts.ToastProvider.ShowToast | src/contexts/ToastContext.tsx:32-55 | the list becomes the shown list and the returned id carries the current time |
| Toasts.ToastProvider.RemoveToast | src/contexts/ToastContext.tsx:57-59 | the toast with that id is removed |
| Toasts.ToastProvider.Expire | src/contexts/ToastContext.tsx:52-54 | the timer removes the toast with that id |
| Toasts.UseToast | src/contexts/ToastContext.tsx:21-27 | outside a provider the hook fails with its message; inside it gives that provider |
| UserModal.LoadedPhone | src/components/UserModal.tsx:74 | the loaded phone holds no white space |
| UserModal.RequiredFieldsIff | src/components/UserModal.tsx:193-198 | the required-field test holds exactly when no required field is all white space (the password only on create) |
| UserModal.PassedCheckBlocksGateAsWritten | src/components/UserModal.tsx:204 | a username check that passed leaves a key holding undefined, which blocks the written gate but not the intended one |
| UserModal.UndefinedKeyIsNoError | src/components/UserModal.tsx:204 | under the corrected gate a key holding undefined counts as no key |
| UserModal.GatesAgreeWithoutUndefined | src/components/UserModal.tsx:204 | the corrected gate equals the written one when no key holds undefined |
| UserModal.NullIfBlank | src/components/UserModal.tsx:215-217 | an all-space value becomes null, any other becomes its trimmed text |
| UserModal.NullIfBlankShape | src/components/UserModal.tsx:215-217 | a kept value is non-empty, a contiguous part of the input, with no white space at either end |
| UserModal.KeptAsIs | src/components/UserModal.tsx:215-217 | a value without white space at either end is kept as it is, or dropped when empty |
| UserModal.ColumnRoundTrip | src/components/UserModal.tsx:75 | a nullable column without outer white space survives loading and cleaning unchanged |
| UserModal.LoadThenSubmitKeepsColumns | src/components/UserModal.tsx:69-94 | saving a freshly loaded user whose Telegram id and avatar URL have no outer white space sends those two back unchanged, the phone without its spaces (null when nothing is left), no points and an empty password |
| UserModal.LoadedTelegramKept | src/components/UserModal.tsx:75 | the Telegram id survives loading and cleaning |
| UserModal.LoadedAvatarKept | src/components/UserModal.tsx:79 | the avatar URL survives loading and cleaning |
| UserModal.LoadedPhoneCleaned | src/components/UserModal.tsx:74 | the loaded phone is sent back without white space |
| UserModal.LoadedEditSendsNoSecrets | src/components/UserModal.tsx:213-219 | saving a loaded user sends no points and an empty password |
| UserModal.PhoneRoundTrip | src/components/UserModal.tsx:74 | the loaded phone, cleaned, is the stored number without white space, or null |
| UserModal.CreateBody | src/components/UserModal.tsx:213-219 | the POST body carries the form's username, name, phone, Telegram id, password and points |
| UserModal.CreatePayloadHasPassword | src/components/UserModal.tsx:193-198 | a create that passes the gate sends a non-blank password and 0 points |
| UserModal.UsernameVerdict | src/components/UserModal.tsx:108-119 | the username message is shown exactly when the check answered anything but `available: true` (an error answer too); a request that throws clears it |
| UserModal.PhoneVerdict | src/components/UserModal.tsx:151-165 | no phone message exactly when the check answered available; a thrown request shows the format message |
| UserModal.OwnUsernameNotFlagged | src/components/UserModal.tsx:104-106 | editing a user whose username nobody else holds shows no username message |
| UserModal.Submitted | src/components/UserModal.tsx:200-247 | with the corrected gate of the Findings row: a closed gate changes nothing; otherwise the cleaned data is submitted, a save resets and closes, a failure shows its message, and loading ends |
| UserModal.SavedFormIsBlank | src/components/UserModal.tsx:223-234 | after a save the form is blank and a new submission is refused |
| UserModal.EmptyFormBlocked | src/components/UserModal.tsx:193-198 | the blank form never passes the gate |
| UserModal.SaveDisabled | src/components/UserModal.tsx:482 | with the corrected gate: an enabled save button means nothing is saving or being checked, the required fields are filled and no message is displayed |
| UserModal.PassedCheckDisablesSaveAsWritten | src/components/UserModal.tsx:482 | as written, a passed check keeps the button of a complete, idle form disabled; with the corrected gate it is enabled |
| UserModal.EnabledSaveSubmits | src/components/UserModal.tsx:482 | a click on the enabled button (corrected gate) always submits the cleaned form |
| UserModal.SubmittedDiffersOnPassedCheck | src/components/UserModal.tsx:204 | a complete form whose username check passed is refused by the written gate but submitted by Submitted |
| UserModal.UserForm.constructor | src/components/UserModal.tsx:52-94 | the form opens with the loaded user's values and no errors |
| UserModal.UserForm.UserChanged | src/components/UserModal.tsx:69-94 | a new user prop reloads the form and clears the errors |
| UserModal.UserForm.HandleChange | src/components/UserModal.tsx:171-190 | one field changes and the errors are cleared; a non-empty username starts a check; a phone is formatted without spaces and checked unless it is the user's own; an unformattable phone shows the format message |
| UserModal.UserForm.UsernameCheckDone | src/components/UserModal.tsx:108-122 | the username key takes the verdict and checking ends |
| UserModal.UserForm.PhoneCheckDone | src/components/UserModal.tsx:151-168 | the phone key takes the verdict and checking ends |
| UserModal.UserForm.HandleSubmit | src/components/UserModal.tsx:200-247 | with the corrected gate: the new state and the submitted data are those Submitted gives |
| UsersPage.Buttons | src/app/dashboard/users/page.tsx:201-213 | the buttons lo..hi in order, each highlighted exactly when it is the current page |
| UsersPage.PushButtons | src/app/dashboard/users/page.tsx:223-225 | the loop appends exactly the buttons lo..hi |
| UsersPage.RenderPagination | src/app/dashboard/users/page.tsx:198-274 | the loops build exactly the bar Window describes |
| UsersPage.WindowEmptyIff | src/app/dashboard/users/page.tsx:199 | the bar is empty exactly when there is at most one page |
| UsersPage.LeadingButtons | src/app/dashboard/users/page.tsx:222-225 | the bar opens with buttons 1..min(3, pages) |
| UsersPage.MarkersIff | src/app/dashboard/users/page.tsx:228-260 | the start ellipsis, the input and the end ellipsis each appear exactly under their conditions |
| UsersPage.WindowButtonsIncrease | src/app/dashboard/users/page.tsx:219-267 | button numbers strictly increase left to right |
| UsersPage.NoDuplicateButtons | src/app/dashboard/users/page.tsx:219-267 | no page number is on two buttons |
| UsersPage.ButtonsInRange | src/app/dashboard/users/page.tsx:201-213 | every button is a page in 1..pages, highlighted exactly when current |
| UsersPage.FirstAndLastShown | src/app/dashboard/users/page.tsx:223-266 | with two or more pages, page 1 and the last page are buttons |
| UsersPage.CurrentPageReachable | src/app/dashboard/users/page.tsx:233-256 | for a page in 1..pages the current page is reachable in exactly one way: a highlighted button or the page-number input |
| UsersPage.AfterPageInput | src/app/dashboard/users/page.tsx:239-246 | typed text changes the page only to a parsed number in 1..pages |
| UsersPage.TypedPageSelected | src/app/dashboard/users/page.tsx:242-245 | typing n selects page n exactly when 1 <= n <= pages |
| JsText.ParseIntNaNIff | src/app/dashboard/users/page.tsx:242 | parseInt gives NaN exactly when, after leading white space and one sign, nothing is left, no decimal digit follows, or "0x"/"0X" follows without a hexadecimal digit |
| UsersPage.NonNumericInputIgnored | src/app/dashboard/users/page.tsx:242-245 | any text parseInt reads as NaN (nothing after the white space and sign, no digit there, or "0x" without a hexadecimal digit) leaves the paging as it is |
| UsersPage.SortParamSelectsOrder | src/app/dashboard/users/page.tsx:101-108 | every sort option the page sends selects its own ordering on the server |
| UsersPage.NameToggleAlternates | src/app/dashboard/users/page.tsx:328 | the name button always changes the option and alternates between name orderings |
| UsersPage.PointsToggleAlternates | src/app/dashboard/users/page.tsx:334 | the points button does the same on points |
| UsersPage.RequestPagingReadBack | src/app/dashboard/users/page.tsx:101-108 | the route reads back the page and limit sent |
| UsersPage.RequestFiltersReadBack | src/app/dashboard/users/page.tsx:101-108 | the route reads back the search, role and order sent and never refuses the role |
| UsersPage.UsersPage.constructor | src/app/dashboard/users/page.tsx:78-96 | the whole initial state: page 1 of 0, ten per page, no search or role, name ascending, loading, no error, no modal open, input "1" |
| UsersPage.UsersPage.FetchUsers | src/app/dashboard/users/page.tsx:98-110 | the query sent is built from the current state; loading starts and nothing else changes |
| UsersPage.UsersPage.FetchUsersDone | src/app/dashboard/users/page.tsx:111-124 | a list replaces users and paging and clears the error; anything else sets the load error; loading ends; nothing else changes; refetch exactly when the page number changed |
| UsersPage.UsersPage.PageClicked | src/app/dashboard/users/page.tsx:204 | only the current page changes; the list is fetched again exactly when it differs from the old page |
| UsersPage.UsersPage.PageInputChanged | src/app/dashboard/users/page.tsx:239-246 | only the input text and the page (as AfterPageInput says) change; refetch exactly when the page changed |
| UsersPage.UsersPage.PageInputBlur | src/app/dashboard/users/page.tsx:247-249 | only the input text changes, back to the current page number, which parses to that page |
| UsersPage.UsersPage.SearchChanged | src/app/dashboard/users/page.tsx:297 | only the search text changes; refetch exactly when it is new |
| UsersPage.UsersPage.RoleChanged | src/app/dashboard/users/page.tsx:316 | only the role filter changes; refetch exactly when it is new |
| UsersPage.UsersPage.ToggleNameSort | src/app/dashboard/users/page.tsx:328 | only the sort option changes, by the name toggle, and the list is always fetched again |
| UsersPage.UsersPage.TogglePointsSort | src/app/dashboard/users/page.tsx:334 | only the sort option changes, by the points toggle, and the list is always fetched again |
| UsersPage.UsersPage.ViewDetails | src/app/dashboard/users/page.tsx:193-196 | only the viewed user and the details modal change: it opens on that user |
| UsersPage.UsersPage.HandleDelete | src/app/dashboard/users/page.tsx:130-133 | only the pending user and the confirmation change: the user is remembered and the confirmation opens |
| UsersPage.UsersPage.ConfirmDelete | src/app/dashboard/users/page.tsx:135-156 | with no pending user nothing changes; a refusal only sets the error; a delete starts fetchUsers (its query returned, loading on), closes the confirmation, forgets the pending user and closes the details of that same user; nothing else changes |
| UsersPage.DeleteViewedUser | src/app/dashboard/users/page.tsx:135-156 | deleting the user whose details are open closes both modals, leaves nothing pending and fetches again, keeping users and paging |
| TestModal.ValidMeaning | src/components/TestModal.tsx:82-98 | the form passes exactly when title and description hold a non-space character and a language is chosen |
| TestModal.DefaultCounts | src/components/TestModal.tsx:40-47 | the default counts read as 150 minutes and 210 questions |
| TestModal.LoadThenSubmitKeepsTest | src/components/TestModal.tsx:51-71 | opening a test and saving it untouched submits its own values |
| TestModal.Submitted | src/components/TestModal.tsx:100-144 | an invalid form only shows the validation message; otherwise the parsed data is submitted, a save shows the success toast, resets and closes, a failure shows its message; loading ends |
| TestModal.DefaultFormInvalid | src/components/TestModal.tsx:82-98 | the defaults do not pass validation |
| TestModal.SavedThenResubmitRefused | src/components/TestModal.tsx:125-133 | after a save the dialog holds the defaults, and resubmitting only shows the validation message |
| TestModal.UnparsedCountRefused | src/components/TestModal.tsx:107-111 | a count that does not parse passes the dialog but the route answers 400 |
| TestModal.ValidFormCreated | src/components/TestModal.tsx:107-111 | a valid form with storable counts and a known type is created by the route |
| TestModal.TestForm.constructor | src/components/TestModal.tsx:40-49 | the dialog opens on the defaults with no error |
| TestModal.TestForm.TestChanged | src/components/TestModal.tsx:51-71 | a new test loads its values, none loads the defaults |
| TestModal.TestForm.HandleChange | src/components/TestModal.tsx:73-80 | one field takes the value and the error is cleared |
| TestModal.TestForm.SaveEnabled | src/components/TestModal.tsx:309 | an enabled save button implies a valid form |
| TestModal.TestForm.HandleSubmit | src/components/TestModal.tsx:100-144 | the new state, submitted data and toast are those Submitted gives |
| Sorting.Sort | src/app/api/users/route.ts:73 | the sorted rows are a permutation of the input |
| Sorting.SortSorted | src/app/api/users/route.ts:73 | under a total preorder the result is sorted |

## Left out

- Database access, the network, the bcrypt and JWT libraries, the phone formatting library and the object-storage client (src/lib/s3.ts) are parameters or `None` inputs, not models; the URL the storage helper builds is not part of this model.
- The AI formatting route, the logout route, the `[id]` routes for users and trial tests and their questions, the seed script, the dashboard, reports and settings pages, the sidebar and every rendering detail are not part of this model.
- Asynchronous interleavings: each response is applied as one step; two requests racing in the user form or the users page are not modelled.
- The toast timers and `Date.now()` are the parameters `now` and the method `Expire`; the random id suffix is a parameter.
- UsersApi.ListUsers: requires page and limit to parse as positive numbers; the source would pass NaN or a non-positive offset to the database, whose behaviour is not modelled.
- UsersApi.Matching: case-insensitive matching lowers ASCII letters, the Cyrillic capitals U+0400 to U+042F and the Kyrgyz Ң, Ү, Ө only; other cased letters (Latin-1 "É", Greek, and so on), which JavaScript and the database lower, are kept as they are, and the database's collation for ordering is not modelled (ordering is code-point order).
- Upload.Extension: lower-cases with the same partial table, so an extension such as "É" keeps its capital.
- UsersApi.PublicUser: GET also loads each user's `subjects` relation (src/app/api/users/route.ts:67-71); the relation is not part of this model.
- UserChecks.CheckUsername: requires a present, non-empty excludeUserId to parse as a number; a value that does not (NaN reaching the database) is not modelled.
- UserChecks.CheckPhone: the same requirement on excludeUserId.
- UsersApi.OrderedIsSortedMatches: rows that tie under the ordering keep table order; the database leaves their order unspecified.
- UsersApi.CreateUser: a body without a username is folded into the `None` body, which answers the same 500; extra body fields other than the modelled columns, columns of the wrong JSON type, and a hash function that throws on a present password are not modelled.
- Settings.SettingsStore.Put: the parallel upserts are applied in entry order; a failing upsert is named by its key.
- TrialTests.NumberOf: a string is read as a number only when it is plain decimal digits after trimming; signs, exponents, hexadecimal and fractions count as a value the column refuses, and JSON numbers are integers.
- TrialTests.CreateTrialTest: the relations loaded with the list (creator and questions) and the language column's database default are not modelled.
- Upload.PostUpload: a form value that is a string rather than a file is not modelled.
- LoginRoute.Login: the comparison function throwing is not modelled.
- UserModal: the role list offers two roles in the form while the model allows all four.
- UserModal.UserForm.HandleSubmit, TestModal.TestForm.HandleSubmit: `isLoading` is true only while the callback runs; the model shows the state before and after.
- UsersPage: the edit modal and its submit handler are not part of this model.
- UsersPage.UsersPage: the effect on page, search, role and ordering (src/app/dashboard/users/page.tsx:126-128) is the `refetch` result of each handler, true exactly when one of those four changed; calling FetchUsers then is the caller's step, and React's batching of several updates into one effect run is not modelled.
- Integers are unbounded except the trial-test counts, which must fit 32 bits; JavaScript numbers beyond 2^53 are not modelled.

## Findings

| source | as written | input that shows it | evidently intended | confidence | as-written member | corrected member |
|---|---|---|---|---|---|---|
| src/components/UserModal.tsx:204 | the save gate (line 204) and the disabled save button (line 482) count the keys of `errors`, and a passed username or phone check stores the key with value undefined (lines 114, 157) | type a free username: `errors` becomes `{ username: undefined }`, `Object.keys(errors).length` is 1 and the submit is refused and the button disabled although no message is shown | block submit only while a validation message is displayed | not executed | UserModal.PassedCheckBlocksGateAsWritten, UserModal.PassedCheckDisablesSaveAsWritten | UserModal.Gate, UserModal.SaveDisabled (with UserModal.UndefinedKeyIsNoError, UserModal.GatesAgreeWithoutUndefined, UserModal.EnabledSaveSubmits) |
