# Academic content portal: routes, scripts and client state in Dafny

This project models the core of a bilingual (Arabic/English) academic content site. Admins publish subjects, resources, questions and announcements. The site keeps per-subject counters of what each subject holds. The modelled pieces are:

- the HTTP route handlers over the relational store: subjects, resources, resource ordering, questions, announcements, overall statistics, login;
- the statistics aggregator, which recounts every subject's resources and questions and upserts one `subject_statistics` row per subject. It runs both as `POST /api/statistics/sync` and as the `relink-stats` script;
- the `init-subject-stats` and `seed` scripts;
- the token helpers of `lib/auth.js`;
- the client side: the question bank's filter and the application context (theme, language, admin session).

The store is one `Database` object (`Store`). Each table is a `seq` or `map` field. Auto-increment keys are explicit counters. The schema's unique keys (subject `code`, one `statistics` row per subject) are its invariant `Valid()`. Handlers are methods with field-level `modifies` frames, so "nothing else changes" is part of every contract. Every store call that can fail takes a fault parameter: a flag, a fault enumeration, or a set of the ids or codes whose call fails. The handler's reply is stated for each fault.

These are parameters rather than code:

- the clock (`Date.now()`, `new Date()`, SQL `NOW()`);
- bcrypt's compare and hash;
- JSON Web Token encoding and verification;
- the environment's default theme and language.

The application context is a class. Its fields are the React state, and maps stand for `localStorage` and the root element's attributes.

Modules, one per core file plus two shared ones:

- `Common`: options, the JavaScript string operations used (ASCII `toLowerCase`, `startsWith`, `includes`), `Array.prototype.filter`, and `parseInt`, all with their lemmas.
- `Store`: the row types and the `Database` class.
- `Sql`: a parameterised statement whose text and bind list grow together.
- `StatisticsSync`, `InitSubjectStats`, `Seed`, `SubjectsRoute`, `ResourcesRoute`, `ResourceOrder`, `QuestionsRoute`, `Announcements`, `OverallStatistics`, `Login`, `Auth`, `QuestionsPage`, `AppContext`.

## Model

| member | source | states |
|---|---|---|
| StatisticsSync.Classify | app/api/statistics/sync/route.js:36-42 | a type lands in bucket k exactly when its lower-cased form is one of k's spellings (the plural `important_questions` included); `null` and unknown types land nowhere |
| StatisticsSync.ClassifyIgnoresCase | app/api/statistics/sync/route.js:36 | a type and its lower-cased form are classified alike |
| StatisticsSync.Counts.Bump | app/api/statistics/sync/route.js:37-42 | one classified row raises exactly its own bucket by one and no other |
| StatisticsSync.TallyCountsMatching | app/api/statistics/sync/route.js:34-44 | each bucket of the tally equals the number of fetched rows whose type lands in it |
| StatisticsSync.TallyTotal | app/api/statistics/sync/route.js:34-44 | the buckets add up to the number of recognised rows, which never exceeds the rows fetched |
| StatisticsSync.UnknownTypeIgnored | app/api/statistics/sync/route.js:36-42 | a row of unknown or `null` type changes no bucket |
| StatisticsSync.CountResources | app/api/statistics/sync/route.js:25-44 | the `forEach` loop leaves exactly the tally of the fetched types |
| StatisticsSync.UpsertedAgain | app/api/statistics/sync/route.js:47-59 | upserting the same payload twice leaves the row of one upsert |
| StatisticsSync.SyncTableAt | app/api/statistics/sync/route.js:12-64 | after the loop, each subject whose upsert succeeded holds one upsert of its own recount over its previous row; every other row is untouched |
| StatisticsSync.SyncGroundTruth | app/api/statistics/sync/route.js:12-64 | for a subject whose queries and upsert succeeded, each bucket equals its count of resources of that type, `total_questions` equals its question count, `updated_at` is the run time, and labs, practicals and tutorials keep their stored values |
| StatisticsSync.SyncAfterFailedQueries | app/api/statistics/sync/route.js:14-34 | a failed resource query writes six zero buckets; a failed count writes `total_questions` 0 |
| StatisticsSync.SyncTwice | app/api/statistics/sync/route.js:47-59 | a rerun that rewrites at least what an earlier run rewrote leaves the table the rerun alone would leave: the counters are overwritten, never accumulated |
| StatisticsSync.SyncIgnoresUnknownResource | app/api/statistics/sync/route.js:34-43 | adding a resource of unknown type changes nothing the sync writes |
| StatisticsSync.SucceededBound | app/api/statistics/sync/route.js:61-66 | the reported count is at most the number of subjects, and equals it exactly when no upsert failed |
| StatisticsSync.SyncSubject | app/api/statistics/sync/route.js:14-63 | one iteration: reports success exactly when the upsert succeeds, and then writes that subject's row and no other |
| StatisticsSync.SyncRoute | app/api/statistics/sync/route.js:4-72 | a failed subject query yields the 500 with its message and writes nothing; otherwise the table is the loop's result and the count is the number of successful upserts |
| StatisticsSync.RelinkStatistics | scripts/relink-stats.js:6-82 | the script writes exactly what the route writes, and nothing when the subject query fails |
| Store.SubjectIds | app/api/statistics/sync/route.js:7 | the subject query returns every subject's id once, in table order |
| Store.StatRow.Bumped | app/api/resources/route.js:78 | `SET c = c + 1` raises counter c by one and leaves the row's key and other counters |
| Store.IncrementWhere | app/api/resources/route.js:76-81 | the update bumps column c of exactly the rows keyed on the subject; row count and order are kept |
| Store.Database.constructor | scripts/setup-database.js:27-158 | the tables start empty and satisfy the schema's keys |
| Store.Database.InsertSubject | app/api/subjects/route.js:43-47 | the insert succeeds exactly when the store does not fail and the code is new (unique key); then it appends the row under the next id |
| Store.Database.InsertStatRow | app/api/subjects/route.js:50-53 | the insert succeeds exactly when the store does not fail and the subject has no row yet; then it appends a zero row |
| Store.Database.Increment | app/api/resources/route.js:76-81 | the `statistics` table becomes `IncrementWhere` of the old one, and the schema's keys still hold |
| InitSubjectStats.InitializeStatistics | scripts/init-subject-stats.js:14-65 | existing rows are never changed; a new row is a zero row for a listed subject whose insert succeeded; every listed subject whose insert did not fail ends with a row; a failed subject query writes nothing |
| InitSubjectStats.RerunChangesNothing | scripts/init-subject-stats.js:31-57 | once every subject has its row, a run (as its contract allows) changes nothing |
| Seed.SeedCodesDistinct | seed.js:19-27 | the seven seed subjects have distinct codes |
| Seed.AdminNamesDistinct | seed.js:47-53 | the five seed users have distinct names |
| Seed.SeedSubjectRows | seed.js:29-43 | existing rows are kept; every seed code ends up taken unless its insert failed; each new row is a seed entry, stored as given, with a `statistics` row unless that insert failed; when every code already existed nothing changes |
| Seed.SeedUsers | seed.js:55-68 | existing users are kept; every new user is a seed name with the shared hash and the admin role; every name ends up taken unless its insert failed; names stay unique when no lookup fails; with no lookup failing, a run in which every name is already present changes nothing |
| Seed.RunSeed | seed.js:15-71 | after the script, every seed subject and user exists unless its own insert failed, and the store's keys still hold |
| SubjectsRoute.CodeLeTotal | app/api/subjects/route.js:18 | any two codes are ordered one way or the other |
| SubjectsRoute.CodeLeTransitive | app/api/subjects/route.js:18 | the code order is transitive |
| SubjectsRoute.CodeLeAntisymmetric | app/api/subjects/route.js:18 | two codes ordered both ways are equal |
| SubjectsRoute.SortByCodeSorted | app/api/subjects/route.js:18 | `ORDER BY s.code ASC` gives ascending codes |
| SubjectsRoute.SortByCode | app/api/subjects/route.js:7-19 | the ordered rows are a permutation of the subjects |
| SubjectsRoute.SortByCodeUnique | app/api/subjects/route.js:18 | ordering by code keeps the unique key on `code`: the ordered rows still have distinct codes |
| SubjectsRoute.StrictlyOrdered | app/api/subjects/route.js:18 | for stored subjects with unique codes, the ordered listing is strictly ascending: no two rows tie |
| SubjectsRoute.JoinedTotals | app/api/subjects/route.js:10-17 | the joined counters are the subject's `statistics` row, or all zero (`COALESCE`) when it has none |
| SubjectsRoute.JoinedTotalsIsTheRow | app/api/subjects/route.js:17 | with one row per subject the join picks that row |
| SubjectsRoute.Listing | app/api/subjects/route.js:7-19 | one listed row per subject, carrying its own columns and joined counters |
| SubjectsRoute.ListingListsEachSubjectOnce | app/api/subjects/route.js:7-19 | the listing lists exactly the stored subjects, each once |
| SubjectsRoute.ListingSorted | app/api/subjects/route.js:18 | the listing is in ascending code order |
| SubjectsRoute.ListingTotals | app/api/subjects/route.js:10-17 | with one `statistics` row per subject, the join gives each subject exactly its own row, or zeros when it has none |
| SubjectsRoute.GetSubjects | app/api/subjects/route.js:5-30 | over a store that keeps its unique keys: a store error yields the 500; otherwise every subject appears once, in strictly ascending code order, carrying its own `statistics` row or zeros |
| SubjectsRoute.Nullable | app/api/subjects/route.js:46 | `description \|\| null` stores a description exactly when it is non-empty |
| SubjectsRoute.Semester | app/api/subjects/route.js:46 | `semester \|\| 1` never stores 0 and keeps any other sent value |
| SubjectsRoute.PostSubject | app/api/subjects/route.js:32-72 | 400 exactly for a missing name or code; 201 exactly when both inserts succeed and the code is new, echoing the fields as sent; the stored row uses the defaults; a failed subject insert writes nothing |
| ResourcesRoute.StatField | app/api/resources/route.js:69-74 | the counter bumped is fixed by an exact, case-sensitive match of five type names, with `important_question` counted under `total_questions`; any other type bumps nothing |
| ResourcesRoute.StatFieldAgreesWithSync | app/api/resources/route.js:69-74 | every type the POST handler counts, the sync counts too, in the corresponding column |
| ResourcesRoute.SyncCountsMoreTypes | app/api/resources/route.js:69-74 | the converse fails: `Lecture` and `important_questions` are counted by the sync only |
| ResourcesRoute.UploadPath | app/api/resources/route.js:45-53 | the stored path is under `/uploads/` and ends with the file's name |
| ResourcesRoute.UploadPathTimestamp | app/api/resources/route.js:45 | the stored name starts with the upload time, which `parseInt` reads back |
| ResourcesRoute.UploadPathsDiffer | app/api/resources/route.js:45-53 | uploads at different times get different paths |
| ResourcesRoute.NewResource | app/api/resources/route.js:59-66 | the inserted row carries the form's fields, and file columns exactly when a file was sent |
| ResourcesRoute.PostResource | app/api/resources/route.js:10-96 | 400 without subject, type or titles; the row is written unless the upload or insert throws; 400 exactly for an incomplete form; the counter named by `StatField` is bumped for that subject, and no `UPDATE` is issued (so nothing can throw there) for a type it does not name; 201 exactly when the row is written and no issued `UPDATE` threw |
| ResourcesRoute.ResourcesSelectHasNoPlaceholder | app/api/resources/route.js:104-122 | the base query and ordering have no `?`; each filter has exactly one |
| ResourcesRoute.BuildQuery | app/api/resources/route.js:104-122 | the text and the bind values grow together: as many `?` as values, in filter order |
| ResourcesRoute.ResourcesQuery | app/api/resources/route.js:104-122 | the listing statement binds the subject and type filters exactly when they are sent, one `?` each |
| ResourcesRoute.GetResources | app/api/resources/route.js:98-135 | a store error yields the 500; otherwise the statement sent has as many `?` as bind values |
| Sql.Statement.constructor | app/api/resources/route.js:104-110 | a statement starts as the base text with no bind values |
| Sql.Statement.Bind | app/api/resources/route.js:112-120 | appending a clause with its values keeps placeholders and values aligned |
| Sql.Statement.Append | app/api/resources/route.js:122 | appending a clause without placeholders keeps them aligned |
| Sql.Bound | app/api/resources/route.js:112-115 | a filter binds one value exactly when its parameter is non-empty |
| Sql.Clause | app/api/resources/route.js:112-115 | a filter's text is added exactly when its parameter is non-empty |
| Sql.OnePlaceholder | app/api/resources/route.js:113 | placeholder-free text followed by `?` binds one value |
| ResourceOrder.SetOrder | app/api/resources/order/route.js:13-16 | one update sets `order_index` on every row with that id and changes nothing else |
| ResourceOrder.ReorderedRows | app/api/resources/order/route.js:12-19 | each row ends with the index of the last applied entry naming its id, or keeps its own; row count, order and other columns are unchanged |
| ResourceOrder.FailedEntryIgnored | app/api/resources/order/route.js:19 | an update the store rejects leaves the table as if it had not been sent |
| ResourceOrder.ApplyOrders | app/api/resources/order/route.js:12-19 | the updates leave exactly the reordered table |
| ResourceOrder.Unwrapped | app/api/resources/order/route.js:12 | a list of objects is read element by element |
| ResourceOrder.PutOrder | app/api/resources/order/route.js:4-30 | 400 exactly for a missing or non-array `orders`; 500 for a `null` element, with nothing written; otherwise success with the reordered table |
| QuestionsRoute.Difficulty | app/api/questions/route.js:103 | `difficulty \|\| 'medium'` is never empty and keeps a sent value |
| QuestionsRoute.ImagePath | app/api/questions/route.js:86-94 | an image path is under `/uploads/questions/` and ends with the image's name |
| QuestionsRoute.ImagePathTimestamp | app/api/questions/route.js:86 | the stored name starts with the upload time, which `parseInt` reads back |
| QuestionsRoute.ImageAndResourcePathsDiffer | app/api/questions/route.js:94 | a question image never gets a resource upload's path |
| QuestionsRoute.NewQuestion | app/api/questions/route.js:97-104 | the inserted row carries the form's fields, the default difficulty, and an image path exactly when an image was sent |
| QuestionsRoute.PostQuestion | app/api/questions/route.js:51-127 | 400 without both texts; the row is written unless the upload or insert throws; 400 exactly for missing texts; `total_questions` is bumped only when a subject is named; 201 exactly when the row is written and no issued `UPDATE` threw |
| QuestionsRoute.FourPlaceholders | app/api/questions/route.js:31 | four `?` in the search clause |
| QuestionsRoute.SearchPattern | app/api/questions/route.js:32 | the pattern is the search text between two `%` wildcards |
| QuestionsRoute.SearchValues | app/api/questions/route.js:33 | a search binds its pattern four times, once per `LIKE` |
| QuestionsRoute.BuildQuery | app/api/questions/route.js:12-36 | text and bind values grow together through the three filters |
| QuestionsRoute.QuestionsQuery | app/api/questions/route.js:12-36 | the listing statement has as many `?` as bind values, with the search pattern on all four `LIKE` operands |
| QuestionsRoute.GetQuestions | app/api/questions/route.js:5-49 | a store error yields the 500; otherwise the statement sent is aligned with its values |
| OverallStatistics.SqlSum | app/api/statistics/overall/route.js:8-17 | `SUM` over no rows is `NULL` |
| OverallStatistics.FallbackIsSum | app/api/statistics/overall/route.js:21-29 | `\|\| 0` makes each total exactly the column sum, empty table included |
| OverallStatistics.GetOverall | app/api/statistics/overall/route.js:5-38 | a store error yields the 500; otherwise each total is its column's sum over all rows and `totalSubjects` counts the subjects |
| OverallStatistics.RowsForUnique | scripts/setup-database.js:156 | with the unique key a subject has one `statistics` row or none |
| OverallStatistics.SumAfterIncrementWhere | app/api/statistics/overall/route.js:8-17 | a counter update raises its column's sum by the number of rows for the subject and leaves the other sums |
| OverallStatistics.TotalAfterIncrement | app/api/statistics/overall/route.js:8-17 | creating a counted resource or question raises the matching overall total by exactly one when the subject has its row, else by nothing |
| OverallStatistics.NewRowKeepsTotals | app/api/statistics/overall/route.js:8-17 | a new subject's zero row leaves every total unchanged |
| Announcements.LimitText | app/api/announcements/route.js:23-25 | the `LIMIT` operand is one integer literal or `NaN`: no other text can enter the query |
| Announcements.LimitTextNaN | app/api/announcements/route.js:24 | `NaN` is written exactly when `parseInt` finds no number |
| Announcements.LimitOfRendered | app/api/announcements/route.js:24 | a limit sent as an integer's decimal text is written back unchanged |
| Announcements.LimitClause | app/api/announcements/route.js:24 | the clause is ` LIMIT ` followed by a safe operand, with no `?` |
| Announcements.BuildQuery | app/api/announcements/route.js:11-25 | the statement is the base, the optional filter, the ordering and the optional limit, with no bind values |
| Announcements.AnnouncementsQuery | app/api/announcements/route.js:7-25 | the filter is on unless `active_only` is exactly `false`; the limit clause appears exactly when `limit` is non-empty; there is no `?` |
| Announcements.GetAnnouncements | app/api/announcements/route.js:5-38 | a store error yields the 500; otherwise the query sent has no placeholders |
| Announcements.PriorityRank | scripts/setup-database.js:90 | a priority's position in the ENUM, 0 exactly for a value outside it |
| Announcements.DescendingPriorityOrder | app/api/announcements/route.js:21 | descending priority lists urgent, high, medium, low |
| Announcements.WithDefault | app/api/announcements/route.js:55 | `value \|\| default` keeps a sent non-empty value |
| Announcements.NewAnnouncement | app/api/announcements/route.js:51-56 | the stored row carries the titles and contents, the defaults `medium` and `general`, and is active |
| Announcements.DefaultPriorityRank | app/api/announcements/route.js:55 | an announcement sent without priority ranks as medium |
| Announcements.PostAnnouncement | app/api/announcements/route.js:40-70 | 400 exactly when one of the four texts is missing; 201 with the next id exactly when the insert succeeds, which appends the row; nothing written otherwise |
| Auth.SignedClaims | lib/auth.js:5-7 | a signed token's claims expire seven days after issue |
| Auth.VerifyToken | lib/auth.js:9-15 | a verification error becomes `null`; otherwise the decoded claims |
| Auth.TokenFromHeader | lib/auth.js:17-23 | a token is read exactly when the header starts with `Bearer `, and it is the rest of the header |
| Auth.TokenRoundTrip | lib/auth.js:19-20 | `Bearer ` plus a token yields that token |
| Auth.SchemeIsCaseSensitive | lib/auth.js:19 | a lower-case `bearer` is not recognised |
| Auth.RequireAuth | lib/auth.js:25-37 | `Unauthorized` exactly when no non-empty token is sent, `Invalid token` exactly when verification fails, the claims otherwise |
| Auth.SignedTokenAccepted | lib/auth.js:5-37 | a token the login signed is accepted with its claims when the library verifies what it encoded |
| Login.FindByEmail | app/api/auth/login/route.js:19-31 | the first admin with the e-mail, or none exactly when no admin has it |
| Login.SetLastLogin | app/api/auth/login/route.js:44-47 | only the admin with that id gets `last_login` set to now |
| Login.View | app/api/auth/login/route.js:50-54 | the token and reply carry id, e-mail and name, never the password |
| Login.PostLogin | app/api/auth/login/route.js:7-78 | 400 exactly when the e-mail or password is missing; 401 exactly for an unknown e-mail or wrong password; 200 with the signed token exactly when the admin is authenticated and no store call throws; `last_login` and the activity log change exactly as the steps that ran |
| Login.FoundAdminIsUnique | scripts/setup-database.js:30 | with unique e-mails the admin found is the only one with that e-mail |
| Login.LoginTouchesOnlyLastLogin | app/api/auth/login/route.js:44-47 | a login changes only the `last_login` of the admin who logged in |
| QuestionsPage.FilterQuestionsIsShown | app/questions/page.js:41-58 | the two chained filters are one filter by the combined test |
| QuestionsPage.ShownMembership | app/questions/page.js:41-58 | a question is shown exactly when it was fetched and passes every active filter |
| QuestionsPage.FilterQuestionsKeepsOrder | app/questions/page.js:41-58 | the shown list is a subsequence of the fetched list |
| QuestionsPage.NoFiltersShowAll | app/questions/page.js:42-57 | with no filter every question is shown |
| QuestionsPage.NonNumericSubjectHidesAll | app/questions/page.js:44-46 | a subject filter that `parseInt` reads as `NaN` hides every question |
| QuestionsPage.SearchIgnoresCase | app/questions/page.js:48-55 | a term and its lower-cased form select the same questions |
| QuestionsPage.EnglishTopicNotSearched | app/questions/page.js:50-54 | the English topic plays no part in the search |
| Common.FilterIsSubsequence | app/questions/page.js:45 | `filter` keeps elements in their order |
| Common.FilterTwice | app/questions/page.js:44-55 | filtering by p then q is filtering by both |
| Common.ToLowerIdempotent | app/questions/page.js:49 | lower-casing twice is lower-casing once |
| Common.ParseIntRoundTrip | app/api/announcements/route.js:24 | `parseInt` of an integer's decimal text is that integer |
| AppContext.NextTheme | contexts/AppContext.js:36 | the toggle gives `dark` exactly from `light`, `light` otherwise |
| AppContext.NextLanguage | contexts/AppContext.js:43 | the toggle gives `en` exactly from `ar`, `ar` otherwise |
| AppContext.Direction | contexts/AppContext.js:23 | the page is right-to-left exactly in Arabic |
| AppContext.ThemeToggleTwice | contexts/AppContext.js:35-40 | two toggles restore a known theme |
| AppContext.LanguageToggleTwice | contexts/AppContext.js:42-48 | two toggles restore a known language |
| AppContext.Preferred | contexts/AppContext.js:15-16 | stored value, else environment default, else the built-in fallback |
| AppContext.AppState.constructor | contexts/AppContext.js:8-11 | the initial state is light, Arabic, no session |
| AppContext.AppState.Mount | contexts/AppContext.js:13-33 | the saved preferences are applied and rendered; the session is restored exactly when both keys hold values |
| AppContext.AppState.ToggleTheme | contexts/AppContext.js:35-40 | the theme flips and is stored and rendered |
| AppContext.AppState.ToggleLanguage | contexts/AppContext.js:42-48 | the language flips and is stored and rendered with its direction |
| AppContext.AppState.Login | contexts/AppContext.js:50-55 | both session keys are stored and the session is entered |
| AppContext.AppState.Logout | contexts/AppContext.js:57-62 | both session keys are removed and the session is left |
| AppContext.AppState.T | contexts/AppContext.js:64-66 | the Arabic text exactly in Arabic |
| AppContext.LogoutUndoesLogin | contexts/AppContext.js:50-62 | a logout after a login leaves no session key, whatever was stored |

## Left out

- Network, file-system and console I/O are not modelled. Uploaded bytes are not written; only the stored path, size and type are. Log lines are not produced.
- Every store call's failure is a parameter; the model does not decide why a call fails. MySQL and Supabase become one in-memory store. The statistics sync, the resource-order handler and the three scripts run against Supabase; the other handlers run against MySQL. Both are modelled as the same table operations.
- `Promise.all` in the resource-order handler runs its updates concurrently. The model applies them in list order. When two entries name the same id, the last one wins; the real outcome then depends on timing.
- Case folding is ASCII-only. `toLowerCase` on non-ASCII letters, MySQL's `utf8mb4_unicode_ci` collation, and its effect on `ORDER BY s.code` and on `WHERE email = ?`, are not modelled. Codes compare by code point.
- `parseInt` skips a fixed list of white-space characters, not every Unicode space. Numbers are unbounded integers, so JavaScript's 53-bit precision is not modelled.
- The GET handlers' result rows (resources, questions, announcements) are left to the store. The model states the statement and bind values sent. Query white space is collapsed to single spaces.
- `LIMIT NaN` and negative limits are SQL errors; they are the GET handler's store-failure case.
- `JSON.stringify` and `JSON.parse` of `adminData` are treated as inverse. The admin object is kept as its stored text, and a `JSON.parse` failure on corrupt storage is not modelled. React's batched state updates and stale closures are not modelled; each handler acts on the current state.
- mysql2 returns `SUM` over integer columns as a decimal string; totals are modelled as numbers.
- ENUM columns (resource type, priority, difficulty) and foreign keys are not enforced by the store; values outside an ENUM are kept as sent.
- The upsert keyed on `subject_id` is modelled with merge semantics: supplied columns overwrite, and omitted columns keep their value, or default to 0 on a new row.
- An `order_index` that is `undefined` is modelled as `null`.
- A failed `.single()` lookup in the seed and init scripts reads as "absent", as in the code. More than one match is not distinguished from an error.
- `bcrypt.compare` is a parameter and is taken not to throw. The JWT secret and library are not part of this model.
- The login page sends `username` while the route reads `email`. The model follows the route as written, so such a request gets the 400.
- `app/api/statistics/route.js` is not part of this model.
- ResourcesRoute.ResourceForm and QuestionsRoute.QuestionForm hold `subject_id` as the number it names, `None` when absent or empty. The handlers test the raw form text for truthiness and bind it unparsed. A non-numeric value such as `abc` passes validation and reaches the `INSERT` and `UPDATE`, where MySQL converts or rejects it. The model cannot represent that input.
- StatisticsSync.SyncRoute and StatisticsSync.RelinkStatistics take one `now` for the whole run. The code evaluates `new Date()` for each subject's upsert, so the stored `updated_at` values of one run can differ by the time the loop takes.
- Seed.SeedSubjectRows: the new `statistics` rows are stated only as keyed on ids at or above the old auto-increment counter, not paired one by one with the new subjects.
- InitSubjectStats.InitializeStatistics: the per-subject lookup is not a separate fault. A lookup that fails on a subject that already has a row leads to an insert the unique key rejects; the model folds this into "row exists, nothing written".
