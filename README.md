# A verified model of the questionnaire backend

This project models an Express and Mongoose backend. It collects project
questionnaires from signed-in users and lets administrators review them.
The model covers:

- the two stored records, User with its embedded notifications and
  Questionnaire, with their schema defaults, setters and validators;
- the `authenticate` and `isAdmin` middleware;
- every handler of the questionnaire, users, admin and auth routers.

The document store is a `Store` class. It holds the users collection and the
questionnaires collection as maps. A counter stands for ObjectId generation,
so both collections draw on one id space.

Handlers that change the store are methods. Each one states its whole new
state and keeps the store invariant: records sit under their own ids, every
record passed validation, and the unique indexes on `firebaseUid` and
`email` hold. Pure parts are functions with their own contracts:

- casting a JSON body into a record;
- the allow-list filters;
- query results in natural and newest-first order;
- the skip/limit window and the page arithmetic;
- the status and month groupings.

Lemmas relate these parts to each other.

Several things the backend gets from outside become parameters:

- The identity provider is an oracle. A map from token to claims stands for
  `verifyIdToken`. The record `createUser` returns (None when it throws)
  and whether `deleteUser` succeeded are parameters.
- The clock is a parameter `now`, in milliseconds.
- The month of a timestamp, as the aggregation's `$year`/`$month` compute
  it, is a parameter `monthOf`.

A handler error that reaches `next(error)` is the response `Unhandled`.

Modules, one file each:

| module | file |
|---|---|
| `Json` | `json.dfy` |
| `Text` | `text.dfy` |
| `Ordering` | `ordering.dfy` |
| `QuestionnaireModel` | `questionnaire_model.dfy` |
| `UserModel` | `user_model.dfy` |
| `Database` | `database.dfy` |
| `Responses` | `responses.dfy` |
| `AuthMiddleware` | `auth_middleware.dfy` |
| `QuestionnaireRoutes` | `questionnaire_routes.dfy` |
| `UsersRoutes` | `users_routes.dfy` |
| `AdminRoutes` | `admin_routes.dfy` |
| `AuthRoutes` | `auth_routes.dfy` |
| `Server` | `server.dfy` |

Verify with `dafny verify *.dfy`.

## Model

| member | source | states |
|---|---|---|
| QuestionnaireModel.StatusNameRoundTrip | src/models/questionnaire.js:62-66 | parsing a status's stored name gives the status back, so the four enum values and their names correspond one to one |
| QuestionnaireModel.ParseStatus | src/models/questionnaire.js:62-66 | an absent status defaults to pending; a present one is accepted exactly when it is one of the four names, and the stored status has that name |
| QuestionnaireModel.ProjectTypeNameRoundTrip | src/models/questionnaire.js:14-18 | the four project types and their names correspond one to one |
| QuestionnaireModel.ParseProjectType | src/models/questionnaire.js:14-18 | a project type is accepted exactly when it is a string naming one of web, mobile, desktop or other |
| QuestionnaireModel.ParseProjectName | src/models/questionnaire.js:9-13 | the name is required, stored trimmed, and rejected when blank after trimming |
| QuestionnaireModel.ParseRequiredString | src/models/questionnaire.js:19-26 | a required string path is accepted exactly when it holds a non-empty string, and stored unchanged |
| QuestionnaireModel.ParseStringList | src/models/questionnaire.js:27-30 | an absent list is empty; a sent value is accepted exactly when it is an array of strings (non-empty ones for key features), and the stored list is that array, item for item |
| QuestionnaireModel.ParseNumber | src/models/questionnaire.js:31-34 | the budget is accepted exactly when it is a number |
| QuestionnaireModel.ParseTimeline | src/models/questionnaire.js:35-44 | a timeline is accepted exactly when it is an object with both dates present as numbers, and the stored dates are the ones sent; their order is not checked |
| QuestionnaireModel.ParseTechnical | src/models/questionnaire.js:45-58 | an absent object gives four empty lists; a sent value is accepted exactly when it is an object whose four lists each parse, and each stored list is its own path parsed as a string list |
| QuestionnaireModel.ParseNotes | src/models/questionnaire.js:59-61 | absent notes are stored as none; sent notes are accepted exactly when they are a string, and that string is stored |
| QuestionnaireModel.ParseFeedback | src/models/questionnaire.js:67-74 | an absent object gives feedback with only `createdAt` = now; a sent one is accepted exactly when it is an object whose message is a string or unset and whose two dates are numbers or unset; the stored message and dates are the sent ones, and an unset `createdAt` defaults to now |
| QuestionnaireModel.ParseCreatedAt | src/models/questionnaire.js:75-77 | an unset `createdAt` becomes now; a sent one is accepted exactly when it is a number, and kept |
| QuestionnaireModel.Construct | src/models/questionnaire.js:4-77 | construction succeeds exactly when all eleven schema paths and `createdAt` cast and validate, so it fails when a name, type, description, audience, budget or timeline is missing; a constructed record is well formed, belongs to the given owner, is pending unless a status was sent, keeps a sent `createdAt` (now otherwise) and has `updatedAt` equal to `createdAt` |
| QuestionnaireModel.ConstructParts | src/models/questionnaire.js:4-74 | each field of a constructed record is the cast of its own path of the document |
| QuestionnaireModel.ConstructSubmission | src/models/questionnaire.js:4-77 | submitting a well-formed record's own fields constructs that record again, stamped with the saving time |
| QuestionnaireModel.ConstructIgnoresUserKey | src/models/questionnaire.js:4-8 | a `user` key in the document has no effect on the constructed record |
| QuestionnaireModel.Touch | src/models/questionnaire.js:75-77 | `save()` stores the edited fields; `updatedAt` keeps its old value when nothing changed and becomes now otherwise |
| UserModel.NormaliseEmail | src/models/user.js:9-15 | the stored email is trimmed and never longer than the input |
| UserModel.LowerTrimCommute | src/models/user.js:9-15 | lower-casing and trimming commute, so the order the setters run in does not matter |
| UserModel.NormaliseEmailNormalises | src/models/user.js:9-15 | a normalised email is trimmed and has no upper-case letters |
| UserModel.NormalisedEmailFixed | src/models/user.js:9-15 | an already normalised email is stored unchanged |
| UserModel.NormaliseIdempotent | src/models/user.js:9-15 | normalising twice is normalising once |
| UserModel.EmailCollision | src/models/user.js:9-15 | two emails that differ only in letter case and surrounding spaces are stored as the same string, so the unique index makes them collide |
| UserModel.NewUser | src/models/user.js:4-36 | a new user is well formed, holds the normalised email and the trimmed display name, is not an admin, has the empty picture, and has creation, last-login and update times = now with empty lists |
| UserModel.ConstructUser | src/models/user.js:4-20 | construction succeeds exactly when uid, email and display name are present and non-empty after normalisation |
| UserModel.ParseDisplayName | src/models/user.js:16-20 | an updated display name must be a string that is non-blank once trimmed, and is stored trimmed |
| UserModel.ParsePicture | src/models/user.js:25-28 | a picture must be a string or null |
| UserModel.FirstWithId | src/models/user.js:41-51 | the index the positional operator picks is the first notification with the id; there is none exactly when no notification has it |
| UserModel.NewNotification | src/models/user.js:41-51 | a pushed notification carries the given id and message, is unread, and is stamped now |
| UserModel.MarkRead | src/routes/users.js:29-31 | the list keeps its length, ids, messages and times; a flag becomes true exactly at the first notification with the id |
| UserModel.MarkReadIdempotent | src/routes/users.js:29-31 | marking the same id twice leaves the list as marking it once |
| UserModel.MarkReadDistinct | src/routes/users.js:29-31 | with distinct ids, exactly the notification with the id becomes read |
| UserModel.UnreadCount | src/routes/users.js:88 | the unread count never exceeds the length and is zero exactly when every notification is read |
| UserModel.UnreadAfterMarkRead | src/routes/users.js:29-31 | marking one read lowers the unread count by one exactly when that notification was unread |
| UserModel.MarkAllRead | src/routes/users.js:72-74 | every notification becomes read with id, message and time kept, and the unread count becomes zero |
| UserModel.Without | src/routes/users.js:52-54 | the notifications with the id are removed and all others kept; an absent id leaves the list unchanged |
| UserModel.WithoutConcat | src/routes/users.js:52-54 | removal preserves the order of the rest |
| UserModel.WithoutDistinct | src/routes/users.js:52-54 | removal keeps notification ids distinct |
| UserModel.RemoveId | src/routes/questionnaire.js:127 | pulling an id removes every occurrence and keeps every other id |
| UserModel.RemoveIdPushed | src/routes/questionnaire.js:21 | pulling an id right after pushing a fresh one restores the list |
| UserModel.ToJson | src/models/user.js:60-64 | `toJSON` removes exactly the `__v` key and keeps every other key and value |
| UserModel.ToJsonDocument | src/models/user.js:60-64 | rendering a stored document gives the user's own fields, whatever its version |
| UserModel.ToJsonIdempotent | src/models/user.js:60-64 | rendering twice is rendering once |
| Database.UidDeterminesUser | src/models/user.js:4-8 | under the unique index, two users with the same uid are the same user |
| Database.InsertUser | src/models/user.js:4-15 | a fresh, valid user whose uid and email are not taken can be added without breaking the store invariant |
| Database.Store.NewId | src/routes/questionnaire.js:11-14 | a new ObjectId is distinct from every id already stored, and nothing else changes |
| AuthMiddleware.BearerToken | src/middleware/auth.js:6-12 | a token exists exactly when the header starts with `Bearer `; it is the text after the prefix up to the next space |
| AuthMiddleware.BearerTokenRoundTrip | src/middleware/auth.js:12 | a space-free token placed after the prefix is read back unchanged |
| AuthMiddleware.BearerTokenExample | src/middleware/auth.js:12 | the header `Bearer a b` yields the token `a` |
| AuthMiddleware.Authenticate | src/middleware/auth.js:4-33 | a missing or malformed header is a 401 "No token provided"; an unverifiable token a 401 "Invalid token"; success attaches a stored user whose uid is the verified one |
| AuthMiddleware.AuthenticateUnique | src/middleware/auth.js:18-22 | in a consistent store authentication succeeds exactly when the token verifies and some user has its uid; that user is the only one; a missing user is a 404 and nothing is created |
| AuthMiddleware.AdminGate | src/middleware/auth.js:35-40 | the admin gate passes exactly admins and answers 403 otherwise |
| AuthMiddleware.RunAuthenticate | src/middleware/auth.js:4-33 | the middleware on a request rejects as `Authenticate` does and otherwise attaches exactly its user and claims |
| AuthMiddleware.RunIsAdmin | src/middleware/auth.js:35-45 | a request without an attached user fails with a 500; otherwise it is the admin gate |
| QuestionnaireRoutes.Create | src/routes/questionnaire.js:9-28 | exactly the constructed record is stored under a fresh id with the caller as owner, and its id appended to the caller's list; an invalid body stores nothing |
| QuestionnaireRoutes.CreateOwnership | src/routes/questionnaire.js:11-14 | a created record belongs to the caller even when the body names another user, and is pending when no status is sent |
| QuestionnaireRoutes.OwnedBy | src/routes/questionnaire.js:33-34 | the list holds exactly the caller's records, newest first, one per stored record |
| QuestionnaireRoutes.ListMine | src/routes/questionnaire.js:31-40 | the answer is the caller's own records, newest first |
| QuestionnaireRoutes.GetMine | src/routes/questionnaire.js:43-58 | a record is returned exactly when it exists and belongs to the caller; otherwise 404 |
| QuestionnaireRoutes.AssignEditable | src/routes/questionnaire.js:91-103 | an owner update keeps id, owner, creation time, status and feedback, keeps the record valid, and moves `updatedAt` to now exactly when some other field changed |
| QuestionnaireRoutes.AssignKeepsReview | src/routes/questionnaire.js:79-102 | keys outside the allow-list cannot reach status or admin feedback |
| QuestionnaireRoutes.AssignKeepsAbsent | src/routes/questionnaire.js:91-102 | each editable field the body does not mention keeps its value |
| QuestionnaireRoutes.AssignAppliesSent | src/routes/questionnaire.js:91-102 | each of the nine editable fields the body sends is stored as the schema's cast of the sent value |
| QuestionnaireRoutes.Update | src/routes/questionnaire.js:61-109 | 404 unless owned by the caller; 400 with no change unless pending or when no allowed key is sent; otherwise exactly the assigned record replaces the old one |
| QuestionnaireRoutes.Delete | src/routes/questionnaire.js:112-134 | only a pending record of the caller is removed, and its id pulled from the caller's list; otherwise 404 and nothing changes |
| QuestionnaireRoutes.PullUndoesPush | src/routes/questionnaire.js:19-128 | deleting a record right after creating it gives the owner back its reference list |
| QuestionnaireRoutes.Transform | src/routes/questionnaire.js:153-161 | every item gets its submitter and `submittedAt` = `createdAt`; it fails exactly when some owner is gone |
| QuestionnaireRoutes.StatusFilterCases | src/routes/questionnaire.js:140 | without a status, or with an empty one, every record is listed; the name of a status selects exactly the records in that status; any other string selects nothing |
| QuestionnaireRoutes.ListAll | src/routes/questionnaire.js:137-172 | the items are exactly the submitters' view of the page of the status-filtered records, newest first, that starts at `(page-1)*limit`; it succeeds exactly when the skip is non-negative and every record on the page has its owner; `total` counts every match and `pages` is `ceil(total/limit)` |
| QuestionnaireRoutes.EveryQuestionnaireOnSomePage | src/routes/questionnaire.js:139-166 | with a positive limit and no record left without its owner, every matching record is listed on one of the pages 1 to `pages` |
| QuestionnaireRoutes.AdminGet | src/routes/questionnaire.js:175-201 | any existing record with its submitter, whoever owns it; 404 when missing |
| QuestionnaireRoutes.AdminEdit | src/routes/questionnaire.js:212-223 | status changes only when a truthy one is sent and must name an enum value; feedback is replaced only when a truthy string is sent; nothing else changes, and `updatedAt` moves to now exactly when something did |
| QuestionnaireRoutes.ReviewMessage | src/routes/questionnaire.js:229 | the notification is exactly `Your questionnaire "` + the project name + `" has been ` + the status sent (or "updated" when no truthy string status was sent) + a full stop, and has that total length |
| QuestionnaireRoutes.Notify | src/routes/questionnaire.js:226-233 | the owner's list gains exactly the one notification at its end and its `updatedAt` becomes now; every other user, and a missing owner, is left alone |
| QuestionnaireRoutes.AdminUpdate | src/routes/questionnaire.js:204-239 | no ownership or pending rule; a failed save changes nothing; a successful one appends exactly one unread notification with the review message to the owner |
| UsersRoutes.GetNotifications | src/routes/users.js:8-18 | the caller's notifications in stored order |
| UsersRoutes.MarkNotificationRead | src/routes/users.js:21-44 | 404 with no change when the caller has no notification with the id; otherwise only the caller's list changes, by `MarkRead` |
| UsersRoutes.DeleteNotification | src/routes/users.js:47-63 | only the caller's list changes, by `Without`; an absent id still answers with the list |
| UsersRoutes.DeletedIsNotFound | src/routes/users.js:21-63 | a deleted notification can no longer be marked read |
| UsersRoutes.MarkAllNotificationsRead | src/routes/users.js:66-82 | only the caller's list changes, by `MarkAllRead` |
| UsersRoutes.UnreadCountOf | src/routes/users.js:85-94 | Ok exactly when the caller exists; the count is UnreadCount of the caller's notifications, at most their number and zero exactly when all are read |
| UsersRoutes.MarkAllThenCount | src/routes/users.js:66-94 | right after marking everything read, the unread count is zero |
| UsersRoutes.MarkOneThenCount | src/routes/users.js:21-94 | marking one read lowers the unread count by one exactly when it was unread |
| UsersRoutes.UpdateLastLogin | src/routes/users.js:97-109 | only the caller's `lastLogin` (and `updatedAt`) changes |
| AdminRoutes.ListUsers | src/routes/admin.js:9-40 | exactly the window at skip `(page-1)*limit` of the users matching the search in email or display name, ignoring case, sorted newest first; fails exactly when the skip is negative; `total` and `pages` as for questionnaires |
| AdminRoutes.SearchMatchesFacts | src/routes/admin.js:14-21 | the search ignores letter case; searching for a user's own email or display name finds that user; no search, or an empty one, finds everyone |
| AdminRoutes.EveryMatchOnSomePage | src/routes/admin.js:23-34 | with a positive limit, every matching user appears on some page between 1 and `pages` |
| AdminRoutes.StatusCounts | src/routes/admin.js:53-87 | one entry per status that some questionnaire has, holding the number of questionnaires in it |
| AdminRoutes.StatusCountsSum | src/routes/admin.js:52-87 | the counts add up to the total number of questionnaires |
| AdminRoutes.Newest | src/routes/admin.js:62-64 | at most five records, newest first, and every record left out is no newer than all five |
| AdminRoutes.Populated | src/routes/admin.js:65 | a recent record carries its owner's summary, or null when the owner is gone |
| AdminRoutes.AddToGroups | src/routes/admin.js:66-76 | counting one more record in a month keeps the groups strictly ordered by month and adds one to that month only |
| AdminRoutes.GroupCounts | src/routes/admin.js:66-75 | each month's group counts exactly the users created in that month |
| AdminRoutes.CountAt | src/routes/admin.js:66-76 | in strictly ordered groups each month has one group |
| AdminRoutes.Registrations | src/routes/admin.js:66-78 | at most twelve groups, latest month first, strictly; each counts exactly its users; a month left out is older than all twelve shown |
| AdminRoutes.AnalyticsOf | src/routes/admin.js:43-94 | the totals are the collection sizes; the status counts are StatusCounts (summing to the questionnaire total), the recent list is the five newest records populated with their owners, and the registrations are the twelve-month grouping |
| AdminRoutes.SetRole | src/routes/admin.js:97-119 | a non-boolean is a 400 and an unknown user a 404, both with no change; otherwise only the user's `isAdmin` (and `updatedAt`) changes |
| AdminRoutes.WithoutOwner | src/routes/admin.js:131 | exactly the questionnaires of other owners remain, unchanged |
| AdminRoutes.DeleteUser | src/routes/admin.js:122-140 | 404 with no change for an unknown user; otherwise the user and exactly their questionnaires go, and nothing else changes |
| AdminRoutes.UserDetailOf | src/routes/admin.js:143-162 | the user with exactly their questionnaires, newest first; 404 when unknown |
| AdminRoutes.DeletedUserLeavesNothing | src/routes/admin.js:122-162 | after the cascade the user's detail is a 404 and no questionnaire of theirs remains |
| AuthRoutes.Register | src/routes/auth.js:9-36 | the new user is built from the provider's record and stored under a fresh id; a provider failure, invalid record or uid/email collision stores nothing |
| AuthRoutes.Enrol | src/routes/auth.js:27 | the unique indexes on uid and email reject a user whose uid or email is taken, with no change; otherwise the user is stored under its own id |
| AuthRoutes.RegisteredUser | src/routes/auth.js:21-25 | the registered user carries the provider's uid, normalised email and trimmed name, is not an admin and has empty lists |
| AuthRoutes.Expand | src/routes/auth.js:41-43 | each reference to a stored questionnaire is expanded to it and nothing else appears |
| AuthRoutes.ExpandIntact | src/routes/auth.js:41-43 | with every reference intact the expansion is the records in reference order |
| AuthRoutes.ExpandAppend | src/routes/auth.js:41-43 | expansion goes reference by reference: expanding two lists one after the other gives the two expansions one after the other, so surviving references keep their order and repeats |
| AuthRoutes.ExpandOne | src/routes/auth.js:41-43 | one reference expands to its record, or to nothing when the record is gone |
| AuthRoutes.ProfileGet | src/routes/auth.js:39-49 | the caller's record with its expanded references, or null when the caller is gone |
| AuthRoutes.ProfileUpdate | src/routes/auth.js:66-70 | the update is accepted exactly when a sent display name is a string that is non-blank once trimmed and a sent picture is a string or null; then only display name and picture change, each only when sent; `updatedAt` moves to now |
| AuthRoutes.ProfilePatch | src/routes/auth.js:52-76 | with no allowed key a 400 and no change; an invalid value changes nothing; otherwise only the caller's display name, picture and `updatedAt` change |
| AuthRoutes.ProfilePatchKeepsPrivileges | src/routes/auth.js:54-60 | whatever the body holds, a profile update cannot change `isAdmin`, the uid, the email or the lists |
| AuthRoutes.ProfileDelete | src/routes/auth.js:79-91 | once the identity is deleted the local user goes and the questionnaires stay; a provider failure changes nothing |
| Server.Gate | src/middleware/auth.js:4-45 | registration is public; every other endpoint answers the authentication rejection when there is one; an authenticated caller passes an ordinary endpoint; on an admin endpoint an admin passes and anyone else gets 403 |
| Server.Handle | src/index.js:58-61 | a request the middleware rejects gets the middleware's response and leaves the store unchanged |
| Ordering.FirstKey | src/middleware/auth.js:18 | `findOne` returns the first stored record satisfying the query, and none exactly when no record does |
| Ordering.SortNewestFirst | src/routes/questionnaire.js:34 | the result is ordered newest first and is a permutation of its input |
| Ordering.FilterEntriesCount | src/routes/questionnaire.js:150 | filtering the collection yields exactly as many records as have matching ids, the number `countDocuments` reports |
| Ordering.Paginate | src/routes/questionnaire.js:145-147 | a negative skip fails; otherwise the page is the run starting at `(page-1)*limit` (or at the end) holding `limit` records, or as many as remain when fewer do; a zero limit takes all that remain |
| Ordering.Window | src/routes/questionnaire.js:145-146 | `skip(skip).limit(limit)` yields the records from position `skip` on, at most `limit` of them, exactly that many when enough remain; 0 means no limit and a negative limit is taken by its absolute value |
| Ordering.Pages | src/routes/questionnaire.js:166 | `Math.ceil(total / limit)`: for a positive limit the least number of pages of `limit` records that hold `total`; for a negative limit the least integer `p` with `p * limit <= total`; null for a zero limit |
| Ordering.PageOfRecord | src/routes/questionnaire.js:145-166 | with a positive limit every record falls on one of the pages 1 to `pages` |
| Ordering.PageOfMatches | src/routes/questionnaire.js:139-147 | one page of the sorted matches holds stored matching records, newest first |
| Text.Trim | src/models/questionnaire.js:12 | the result has no white space at either end and is never longer than the input |
| Text.TrimCore | src/models/questionnaire.js:12 | what `trim` removes is white space only: the input is white space, the result, then white space |
| Text.TrimIdempotent | src/models/user.js:14 | trimming twice is trimming once |
| Text.Lower | src/models/user.js:13 | lower-casing keeps the length and maps every character on its own, folding the ASCII letters A to Z and leaving every other character as it is |
| Text.LowerIdempotent | src/models/user.js:13 | lower-casing twice is lower-casing once |
| Text.JoinSplit | src/middleware/auth.js:12 | `split(' ')` loses nothing: joining the fields with single spaces gives the string back |
| Text.SplitHead | src/middleware/auth.js:12 | the first field of a split is the text before the first space |

## Left out

- The identity provider's SDK (`createUser`, `verifyIdToken`, `deleteUser`) and its credential loading in src/config/firebase.js. The provider is an oracle given as parameters.
- The password sent at registration. It goes only to the provider.
- Casting of path ids: a malformed ObjectId raises a cast error (500). Ids are natural numbers here, so that error path does not occur. The error-handling middleware src/middleware/errorHandler.js is not part of this model.
- src/index.js is not part of this model: helmet, CORS, the rate limiter, logging, listening and the database connection with its retry delays. The app mounts `authenticate` a second time before each router; it is modelled once.
- createAdmin.js is not part of this model. It is a one-shot provisioning script.
- Concurrency. The `Promise.all` of the analytics endpoint reads one snapshot. Each save and the `findByIdAndUpdate` after it run in sequence.
- The search string is not read as a regular expression. It is a case-insensitive substring match, and case folding covers the ASCII letters only.
- NormaliseEmail: lower-cases the ASCII letters A to Z only, where `toLowerCase` also folds other scripts. Two emails that differ only in, say, `É` and `é` are stored as different strings, so the model does not reject the second one as a duplicate.
- EmailCollision: states the collision for ASCII case differences only, for the same reason.
- Database.UniqueEmail: compares the stored strings exactly, as the unique index does, but the strings it compares come from the ASCII-only NormaliseEmail, so emails that differ only outside ASCII do not clash in the model.
- Construct: an `_id` in the document is ignored, so the record always gets the fresh id; a client-chosen id, its cast and its duplicate-key failure are not modelled, because ids are natural numbers drawn from the store's counter.
- Create: the same `_id` gap; a POST carrying `_id` stores the record under the fresh id instead of the sent one.
- Dates are integers in milliseconds. The UTC year and month the aggregation extracts are the parameter `monthOf`.
- Mongoose casts between types, such as the string "100" to a number, are not modelled. Only values of the schema type are accepted. A JSON null reads as unset for a schema path, and a required path then fails validation.
- Numbers are integers. Fractional budgets and dates are not modelled.
- The `.sort` at src/routes/users.js:12 orders the result documents, not the embedded notifications. The list keeps its stored order.
- The handlers at src/routes/auth.js:39, 52 and 79 do not declare `next`, so their catch blocks would throw again. Their failures are the response `Unhandled`.
- Query parameters `page`, `limit`, `status` and `search` arrive already parsed: integers, or strings.
- A limit of 0 means no limit; a negative limit counts as its absolute value; a negative skip is an error.
- The database's order among records with equal `createdAt` is taken as ascending id.
- Assigning a nested path such as `timeline` replaces the whole nested object. Mongoose's merging of nested paths is not modelled.
- No user is created lazily by `authenticate`. No bootstrap admin email exists. The code does neither, so the model follows the code.
- Server.Dispatch and its four group methods promise only the store invariant. The per-route results are stated by the handlers they call.
- Server.Handle states nothing about the response of a request that passes the middleware. That response is the called handler's, stated by the handler.
