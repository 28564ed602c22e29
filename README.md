# Skill-swap marketplace core, in Dafny

This project models the backend core of a skill-exchange marketplace. Users
register with a profile: the skills they offer, the skills they want,
whether their profile is public, and when they are available. Users can
find other users whose skills complement theirs. They can send each other
swap requests, which the recipient accepts or rejects, or the requester
cancels while the request is still pending.

The model covers the following parts of the backend:

- **User schema** (`UserSchema`, `user.dfy`):
  - the BaseUser fields with their setters (trim, lowercase) and validators (required, minimum length, email pattern, the photo URL check);
  - the `User` discriminator's defaults;
  - `toJSON`, which drops the password;
  - extracting an uploaded photo's file name from its URL.
- **User collection** (`UserStore`, `user_store.dfy`):
  - a `Users` class whose `all` field is the collection in natural order;
  - `findUserById`, `findByEmail`, `createUser` (which enforces the unique email index), `updateUser` (`findByIdAndUpdate` with `runValidators`) and `deleteProfilePhoto`.
- **Authentication middleware** (`AuthMiddleware`, `auth_middleware.dfy`): `isLoggedIn`. It decides a request from:
  - the `Authorization` header;
  - the token verifier;
  - the collection.

  The `Request` class receives `user` and `userId` when access is granted.
- **Account handlers** (`AuthController`, `auth_controller.dfy`): register, login, forgot-password, reset-password and profile update. Each handler's checks are written in the order the code runs them, with the exact status codes and messages.
- **Skill matching** (`MatchService`, `match_service.dfy`): `getSkillMatches` as a loop over the candidate pool. Each user has a score out of three:
  - availability overlap;
  - "they offer something I want";
  - "they want something I offer".

  Users scoring 3, 2 and 1 each go into their own list.
- **Swap-request schema** (`SwapRequestSchema`, `swap_request.dfy`): the status enum and building a record with its defaults.
- **Swap-request service** (`SwapService`, `swap_service.dfy`):
  - creating a request after a fixed chain of checks;
  - listing one user's requests: newest first, filtered by type and status, paginated, tagged as sent or received, grouped by status, with summary counts and pagination metadata;
  - the three transitions out of `pending`.

  The `SwapStore` class holds the requests by id, the ids in creation order, and a logical clock that stands for the timestamps.
- **Swap-request handlers** (`SwapController`, `swap_controller.dfy`):
  - the field and bound checks made before the service is called;
  - the mapping from the service's error messages to HTTP statuses. The messages are compared as exact strings.

Conventions:

- **Ids** are 24-character lowercase hexadecimal strings.
- **Id text that does not cast to an ObjectId** raises a CastError. The model returns `None` from `CastObjectId` and calls the error message `CastErrorMessage`. Every handler answers a CastError with its generic 500.
- **A thrown error** is `Result.Thrown(message)`. The exact text matters, because the handlers dispatch on it.
- **An HTTP answer** is `Reply.Send(status, payload)` or `Reply.Refuse(status, message)`.
- **Code outside the model** becomes a function parameter:
  - bcrypt hashing and comparison;
  - JWT verification;
  - `JSON.parse` of the availability field;
  - the email regular expression;
  - `new URL(...)`.

The model follows the code wherever the code and its documentation disagree. The handlers and the listing are modelled as the code behaves:

- the self-request guard of the create handler never fires, so a request to oneself reaches the service (`SwapController.HandleCreate`);
- the listing tags every request 'received', including the ones the user sent (`SwapService.ListEntries`, `SwapService.SwapStore.List`, `SwapController.HandleList`);
- login does not check the password (`AuthController.Login`);
- the cancel handler mistakes its own service's unauthorized message. That message has the characters U+00C2 U+00A0 where the handler's test has a space, so a wrong-actor cancel answers 500 instead of 403.

For the first three, which are evidently unintended, a corrected definition is modelled beside the one as written, and its intended property is proved (see Findings): `SwapController.HandleCreateCorrected`, the listing `SwapService.ListingOf` with the `Intended` tag rule, and `AuthController.LoginVerified`.

## Model

| member | source | states |
|---|---|---|
| Common.CastObjectId | backend/models/BaseUser.js:73-75 | An id text casts exactly when it is 24 hex digits, and then to its lowercase form, a canonical ObjectId string |
| Common.TrimIdempotent | backend/models/BaseUser.js:9-31 | Trimming a trimmed value changes nothing, so re-saving a stored trimmed field keeps it |
| Common.LowerIdempotent | backend/models/BaseUser.js:14-21 | Lowercasing is idempotent, so an email stored lowercase is found again by its own value |
| Common.FilterIn | backend/service/userService.js:11-15 | A filtered collection holds exactly the elements of the original that satisfy the query predicate |
| Common.FilterConcat | backend/service/userService.js:21-56 | Filtering a concatenation is the concatenation of the filtered parts, so a scan keeps order |
| Common.FilterCount | backend/service/userService.js:48-55 | A filter keeps every occurrence of an element it accepts and none of one it rejects |
| UserSchema.BuildUserValid | backend/models/BaseUser.js:8-58 | A user document saves iff name, email (non-empty and matching the pattern), password (at least 6 characters), location and pet name are present after trimming, and the photo passes its validator. Otherwise it fails with 'User validation failed' |
| UserSchema.BuildUser | backend/models/BaseUser.js:8-58 | A user that saves carries the id it was given (its other fields are stated by the BuildUser lemmas below) |
| UserSchema.BuildUserFields | backend/models/BaseUser.js:8-58 | A saved user has the given id, the email trimmed and lowercased, the name trimmed, the password as given (at least 6 characters), and non-empty name, location and pet name |
| UserSchema.BuildUserDefaults | backend/models/User.js:7-40 | Left undefined, isPublic defaults to true, isBanned to false, both skill lists to empty, every availability flag to false with customText '', and the photo to null |
| UserSchema.BuildUserKeepsSkills | backend/models/User.js:7-14 | Skill lists are stored element by element trimmed, with the same length (duplicates kept) |
| UserSchema.TrimAllIdempotent | backend/models/User.js:7-14 | A stored skill list has no skill with white space at either end, and trimming it again, as a re-save does, changes nothing |
| UserSchema.ToObject | backend/models/BaseUser.js:61-65 | toObject has exactly the schema paths plus the role key, each holding the stored field: the id, the name, email, location and pet name as strings, the photo or null, both skill lists element by element, the two flags and the availability object |
| UserSchema.ToJson | backend/models/BaseUser.js:61-65 | toJSON has every key of toObject except password, each with its original value |
| UserSchema.ToJsonKeepsAllButPassword | backend/models/BaseUser.js:61-65 | Two users with the same JSON differ at most in their password: no other field is lost |
| UserSchema.PhotoFilename | backend/models/User.js:47-51 | Without '/uploads/' the file name is the photo value itself. Otherwise it is the text after the first '/uploads/' and has no further occurrence of it |
| UserSchema.PhotoFilenameOfUrl | backend/models/User.js:47-51 | The file name extracted from the URL of an uploaded file is that file's name |
| UserStore.FindById | backend/models/BaseUser.js:73-75 | A user is found iff some stored user has the id, and the one found is stored with that id |
| UserStore.FindByEmailNormalises | backend/models/BaseUser.js:68-70 | findByEmail lowercases and trims its argument: it finds a user iff some stored email equals the normalised text |
| UserStore.InsertOutcome | backend/models/BaseUser.js:78-80 | createUser succeeds iff the document validates and no stored user has the normalised email. The new user carries the given id |
| UserStore.AppendWellformed | backend/models/BaseUser.js:14-21 | Appending a user with a fresh id and an unused email keeps ids and emails unique |
| UserStore.ApplyPatch | backend/models/BaseUser.js:83-85 | An update validates only the paths it sets (password length, non-empty location, photo). On success the set paths take the new values and id, name, email, pet name and ban flag stay as they were |
| UserStore.Users.Create | backend/models/BaseUser.js:78-80 | The insert appends exactly the built user on success and changes nothing on failure, keeping ids and emails unique |
| UserStore.Users.Update | backend/models/BaseUser.js:83-85 | A CastError or an unknown id changes nothing. A failed validation changes nothing. Otherwise exactly that user is replaced by the patched one |
| UserStore.Users.DeleteProfilePhoto | backend/models/User.js:44-60 | For a stored user with a non-empty photo, the photo becomes null and the file name from its URL is returned. Otherwise nothing changes |
| AuthMiddleware.ErrorReply | backend/middleware/auth.js:53-70 | JWT errors (invalid or expired) answer 401 and any other error answers 500 'Authentication failed.' |
| AuthMiddleware.Authenticate | backend/middleware/auth.js:10-71 | Whoever is admitted sent a 'Bearer ' header and is a stored user who is not banned; every refusal is 401, 403 or 500 |
| AuthMiddleware.NoBearerNoLookup | backend/middleware/auth.js:15-20 | A missing header or one without 'Bearer ' answers 401, whatever the verifier and the collection |
| AuthMiddleware.TokenFollowsPrefix | backend/middleware/auth.js:23-26 | The token verified is the header after 'Bearer ', and its verification decides the outcome |
| AuthMiddleware.UnknownUserDenied | backend/middleware/auth.js:29-35 | A verified token naming no stored user, or with no userId claim, answers 401 'Invalid token. User not found.' |
| AuthMiddleware.AdmitSound | backend/middleware/auth.js:38-47 | Whoever is let through holds a bearer token whose claim names them, is stored, and is not banned. A banned user with a valid token is refused 403 |
| AuthMiddleware.IsLoggedIn | backend/middleware/auth.js:10-71 | On admission req.user and req.userId are set and next is called. On refusal the request is untouched and the refusal's status and message are sent |
| AuthController.RegisterCheck | backend/controllers/authController.js:14-30 | Every refusal is a 400. Passing needs an email no user has and a password of at least 6 characters that equals its confirmation |
| AuthController.RegisterCheckOrder | backend/controllers/authController.js:14-30 | Register refuses with 400 in this order: a missing field, differing passwords, a password under 6 characters, an email already registered. It passes iff none holds |
| AuthController.RegisterDocFields | backend/controllers/authController.js:47-63 | A registered user is public iff the form sent 'true' or true. Absent skills become empty lists; the user is not banned and stores the given availability, hash and photo |
| AuthController.Register | backend/controllers/authController.js:8-84 | A failed check answers its 400. A failed availability parse or insert answers 500. Otherwise 201 with the user's JSON, and the user is appended |
| AuthController.Login | backend/controllers/authController.js:86-124 | As written, a success is a 200 for a registered email and carries no password; every refusal is a 400 |
| AuthController.LoginIgnoresPassword | backend/controllers/authController.js:86-124 | As written, login succeeds iff both fields are given and the email is registered. Any password gives the same answer |
| AuthController.LoginAcceptsWrongPassword | backend/controllers/authController.js:101-105 | A concrete stored user logs in with a password the verifier rejects. The corrected login refuses it |
| AuthController.LoginVerified | backend/controllers/authController.js:91-105 | With the comparison restored, success needs a registered email and a matching password. A mismatch answers the same 400 as an unknown email |
| AuthController.LoginHidesPassword | backend/controllers/authController.js:114-118 | The user sent on a successful login never carries the password |
| AuthController.ForgotPassword | backend/controllers/authController.js:126-161 | A success is always 200 'Pet name verified successfully', and every refusal is a 400 |
| AuthController.ForgotPasswordIff | backend/controllers/authController.js:126-161 | Forgot-password succeeds iff email and pet name are given, the email is registered, and the pet name matches exactly |
| AuthController.ResetCheck | backend/controllers/authController.js:168-196 | Every refusal is a 400. Passing needs a registered email and a new password |
| AuthController.ResetCheckOrder | backend/controllers/authController.js:168-196 | Reset refuses with 400 in this order: a missing field, differing passwords, a password under 6 characters, an unknown email, a wrong pet name. It passes iff none holds |
| AuthController.ResetPassword | backend/controllers/authController.js:163-213 | A failed check answers its 400 and changes nothing. Otherwise only the matched user's password becomes the hash of the new one, answering 200. A hash failing validation answers 500 |
| AuthController.ProfilePatch | backend/controllers/authController.js:253-271 | The update never sets the password, passes the location as given, always sets the flag, both skill lists, the availability and the photo, and keeps the stored photo without an upload |
| AuthController.ProfilePatchEffect | backend/controllers/authController.js:253-271 | Without a new file the photo is kept, and without an availability field the stored availability is kept. Absent skills become empty and an absent flag makes the profile private. Name, email, password and ban flag never change |
| AuthController.UpdateProfile | backend/controllers/authController.js:233-291 | A CastError answers 500 and an unknown id 404. A parse or validation failure answers 500. Otherwise that user is replaced by the patched one and sent without its password |
| MatchService.AvailabilityOverlap | backend/service/userService.js:25-33 | An overlap needs some availability flag set on both sides: weekdays on both, weekends on both, or custom on both with equal text |
| MatchService.Score | backend/service/userService.js:22-46 | The score is at most 3. It is 3 iff all three criteria hold and 0 iff none does |
| MatchService.ScoreSymmetric | backend/service/userService.js:25-46 | Offered-match one way is wanted-match the other way, and availability overlap is symmetric, so the score is too |
| MatchService.PoolIff | backend/service/userService.js:11-15 | The pool is exactly the stored users other than the caller that are public and not banned |
| MatchService.Pool | backend/service/userService.js:11-15 | Every pool member is a stored user other than the caller that is public and not banned |
| MatchService.Categorise | backend/service/userService.js:48-55 | Every user in a list comes from the pool and scores that list's count: 3, 2 or 1 |
| MatchService.CategoriseMembership | backend/service/userService.js:48-55 | A candidate is in a list iff its score is that list's, so it is in at most one list, and a candidate scoring 0 is in none |
| MatchService.BucketsPartition | backend/service/userService.js:48-55 | The three lists and the dropped score-0 candidates together hold every candidate as often as the pool does |
| MatchService.CategoriseKeepsOrder | backend/service/userService.js:21-56 | Each list keeps the scan order of the pool |
| MatchService.ScanPool | backend/service/userService.js:21-56 | The forEach that counts each candidate's criteria and pushes it onto the list for its count yields exactly the categorisation of the pool |
| MatchService.GetSkillMatches | backend/service/userService.js:3-63 | A CastError answers 500 and an unknown caller 404. Otherwise 200 with the three lists the scan of the pool produces, each user sent as its toJSON, so no password hash is sent |
| MatchService.MatchesHidePasswords | backend/models/BaseUser.js:61-65 | Serialising the three lists through toJSON keeps one JSON object per matched user and drops every password |
| SwapRequestSchema.ParseStatus | backend/models/swapRequest.js:8-12 | A status string is accepted iff it is one of the four enum values, and it parses back to its own name |
| SwapRequestSchema.ParseStatusName | backend/models/swapRequest.js:8-12 | Every status's name is an enum value that parses to that status |
| SwapRequestSchema.BuildSwapRequest | backend/models/swapRequest.js:3-14 | A request saves iff both parties and both skills are given and the status is absent or an enum value. It defaults to pending, trims the message and is stamped now |
| SwapService.CreateCheck | backend/service/swapRequestService.js:14-67 | A saved request is pending, from the requester, and created now. Every failure is one of the messages the service throws: a CastError, recipient not found, cannot send to this user, the TypeError of a missing requester, an invalid skill, a duplicate, or a schema validation failure |
| SwapService.CreateCheckOrder | backend/service/swapRequestService.js:24-55 | Create fails in this order, the first failure winning: the recipient is missing; the recipient is private or banned; a skill is invalid; a pending duplicate exists. The duplicate error is raised iff a pending twin exists |
| SwapService.CreateSucceeds | backend/service/swapRequestService.js:58-67 | A created request is pending between exactly the given parties for the given skills. It carries the trimmed message or '' and is created now; every check held |
| SwapService.CreateTwiceIsDuplicate | backend/service/swapRequestService.js:45-55 | Repeating a successful create once its record is stored is refused as a duplicate |
| SwapService.DuplicateNeedsPendingTwin | backend/service/swapRequestService.js:45-55 | Only a pending request with the same four fields blocks a create. Storing any other record leaves the duplicate check unchanged |
| SwapService.NewestFirst | backend/service/swapRequestService.js:135-142 | The entries are those of the ids in reverse creation order, position by position |
| SwapService.QueryFor | backend/service/swapRequestService.js:109-126 | The query is for the listing user. It filters by status iff the status parameter is one of the four enum strings, and then by exactly that status |
| SwapService.QuerySelects | backend/service/swapRequestService.js:109-126 | type 'sent' selects requests the user sent and 'received' requests the user received; any other type selects both. The status filter applies only for one of the four enum strings |
| SwapService.PageOf | backend/service/swapRequestService.js:129-142 | A page holds at most limit items and never more than there are |
| SwapService.PageContents | backend/service/swapRequestService.js:129-142 | Page p holds the items from position (p-1)*limit onward, as many as exist up to limit, in order |
| SwapService.ItemPage | backend/service/swapRequestService.js:129-142 | Item k is on page k/limit+1 at position k mod limit, so the pages cover every match |
| SwapService.PaginationMeta | backend/service/swapRequestService.js:179-181 | totalPages is the ceiling of total/limit. A next page exists iff items remain after this page, and a previous page iff this page skipped items |
| SwapService.TotalPages | backend/service/swapRequestService.js:179 | There are no pages iff there are no matches, and never more pages than matches |
| SwapService.TotalPagesCeiling | backend/service/swapRequestService.js:179 | totalPages times limit covers every match, and one page fewer does not |
| SwapService.PaginationExample | backend/service/swapRequestService.js:179-181 | Fifteen matches at ten per page: page 2 holds the last five, there are two pages, no next page and a previous one |
| SwapService.RequestType | backend/service/swapRequestService.js:153-156 | Corrected tag: 'sent' iff the listing user is the requester, otherwise 'received' |
| SwapService.RequestTypeAsWritten | backend/service/swapRequestService.js:155-156 | As written the tag is never 'sent', because the populated requester's string form is never the id text |
| SwapService.SentRequestMistagged | backend/service/swapRequestService.js:155-156 | A request the user sent is tagged 'received' as written and 'sent' by the corrected tag |
| SwapService.ListedTags | backend/service/swapRequestService.js:109-156 | With the corrected tag, every item of a type=sent listing is tagged 'sent', and every item of a type=received listing between distinct parties is tagged 'received'. The code as written does not do this (see ListingTagsAsWritten) |
| SwapService.ListingTagsAsWritten | backend/service/swapRequestService.js:152-171 | As written, every item of every listing is tagged 'received', whatever the type parameter and whoever sent it |
| SwapService.ListingRulesAgree | backend/service/swapRequestService.js:106-209 | The listing as written and the corrected one hold the same requests in the same status lists and order, with the same counts and pagination; only the tags differ |
| SwapService.WithStatusUntagged | backend/service/swapRequestService.js:145-176 | Grouping a tagged page by status and dropping the tags is filtering the page by status, so the tag plays no part in the grouping |
| SwapService.ListingOf | backend/service/swapRequestService.js:106-209 | The listing reports the requested page and limit, its total is the pagination's item count, and its status counts sum to at most the limit |
| SwapService.OrganizePartition | backend/service/swapRequestService.js:145-176 | The four status lists together hold every page item exactly as often as the page |
| SwapService.OrganizeCounts | backend/service/swapRequestService.js:187-193 | The four status counts add up to the number of items on the page |
| SwapService.SummaryCounts | backend/service/swapRequestService.js:183-193 | The status counts describe the returned page and sum to its length, at most limit. The total counts every match |
| SwapService.OrganizeByStatus | backend/service/swapRequestService.js:173-175 | The forEach loop that pushes each item onto its status's list yields the grouping: each list holds exactly its status's items in page order |
| SwapService.FilterSorted | backend/service/swapRequestService.js:135-142 | Filtering keeps the newest-first order |
| SwapService.PageSorted | backend/service/swapRequestService.js:140-142 | Skipping and limiting a newest-first sequence keeps it newest first |
| SwapService.Target | backend/service/swapRequestService.js:242-243 | Every transition ends in a leaf state (accepted, rejected or cancelled) |
| SwapService.UnauthorizedMessage | backend/service/swapRequestService.js:232-345 | Each unauthorized message starts 'Unauthorized to ' and differs from the not-found and non-pending messages of the same action |
| SwapService.Decide | backend/service/swapRequestService.js:217-244 | A transition that succeeds was taken by the action's actor on a stored pending request, and leaves it in a leaf state updated now |
| SwapService.DecideOrder | backend/service/swapRequestService.js:226-244 | A transition fails in this order: not found, wrong actor, not pending. It succeeds iff none holds, and then changes only the status (to the action's target) and the update time |
| SwapService.OnlyActorMoves | backend/service/swapRequestService.js:230-244 | Only the requester cancels and only the recipient accepts or rejects. Only a pending request moves, into the action's leaf state |
| SwapService.Step | backend/service/swapRequestService.js:242-244 | A transition never adds or removes a request |
| SwapService.TerminalAbsorbing | backend/service/swapRequestService.js:237-240 | A request in a leaf state keeps it whatever transitions anybody requests afterwards |
| SwapService.RunKeepsContent | backend/service/swapRequestService.js:242-244 | No sequence of transitions changes a request's parties, skills, message or creation time |
| SwapService.AppendValid | backend/service/swapRequestService.js:58-67 | Saving a record created now under a new ObjectId keeps the collection invariant: every id listed once in creation order, and creation times increasing |
| SwapService.ReplaceValid | backend/service/swapRequestService.js:242-244 | Saving a changed record with its creation time unchanged keeps the collection invariant |
| SwapService.ListEntries | backend/service/swapRequestService.js:106-209 | The listing is the matches' page, tagged as the code tags it (every item 'received') and grouped by status, with the counts of that page and the pagination metadata of all matches |
| SwapService.SwapStore.NewestSorted | backend/service/swapRequestService.js:135-142 | The stored requests newest first are strictly ordered by creation time and are exactly the stored records |
| SwapService.SwapStore.PageNewestFirst | backend/service/swapRequestService.js:135-142 | Every page of any listing is newest first |
| SwapService.SwapStore.Create | backend/service/swapRequestService.js:14-94 | On success the checked record is stored under the new id, stamped with the current time. On any error nothing changes |
| SwapService.SwapStore.List | backend/service/swapRequestService.js:106-209 | The listing as written (every item tagged 'received') of the stored requests newest first; nothing is written |
| SwapService.SwapStore.Transition | backend/service/swapRequestService.js:217-266 | The outcome is the decision on the old state. A success replaces exactly that record; an error changes nothing |
| SwapService.SwapStore.CancelRequest | backend/service/swapRequestService.js:217-266 | Cancel is the transition by the requester out of pending into cancelled: the outcome is the decision on the old state, a success replaces exactly that record and advances the clock, an error changes nothing, and the creation order is kept |
| SwapService.SwapStore.AcceptRequest | backend/service/swapRequestService.js:274-321 | Accept is the transition by the recipient out of pending into accepted: the outcome is the decision on the old state, a success replaces exactly that record and advances the clock, an error changes nothing, and the creation order is kept |
| SwapService.SwapStore.RejectRequest | backend/service/swapRequestService.js:329-375 | Reject is the transition by the recipient out of pending into rejected: the outcome is the decision on the old state, a success replaces exactly that record and advances the clock, an error changes nothing, and the creation order is kept |
| SwapController.CreatePrecheckAsWritten | backend/controllers/swapRequestController.js:21-34 | As written, the service is reached iff recipient and both skills are given; otherwise the answer is 400 'Recipient ID, skill offered, and skill requested are required' |
| SwapController.CreatePrecheck | backend/controllers/swapRequestController.js:21-34 | Corrected checks: the service is reached iff recipient and both skills are given and the recipient is not the requester. Every refusal is 400 |
| SwapController.SelfRequestSlipsThrough | backend/controllers/swapRequestController.js:29-34 | A request to oneself passes the checks as written and is refused by the corrected guard |
| SwapController.MissingFieldsRefused | backend/controllers/swapRequestController.js:21-26 | A missing recipient or skill is refused 400 by both versions before the service is called |
| SwapController.CreateErrorReply | backend/controllers/swapRequestController.js:52-77 | 'Recipient not found' maps to 404, the skill error to 400, the duplicate to 409, and every other message to 500 |
| SwapController.PrivateRecipientIs500 | backend/controllers/swapRequestController.js:52-77 | A private or banned recipient has no mapping of its own and answers 500 |
| SwapController.CreatedNotToSelf | backend/controllers/swapRequestController.js:29-34 | A request past the corrected guard and the service is never addressed to its requester, so storing it keeps that invariant |
| SwapController.HandleCreate | backend/controllers/swapRequestController.js:14-79 | As written: a missing field answers 400, a service error its mapped status, and a success 201 with the stored record, which is appended in creation order at the current time. A request to oneself reaches the service |
| SwapController.SelfRequestCreated | backend/controllers/swapRequestController.js:29-34 | As written, a public, unbanned user who offers both skills can address a request to themself: the checks pass and the service saves a record whose requester is its recipient |
| SwapController.HandleCreateCorrected | backend/controllers/swapRequestController.js:14-79 | With the corrected guard, the same answers except that a request to oneself is refused 400, so a store without requests to oneself keeps none |
| SwapController.ListCheck | backend/controllers/swapRequestController.js:97-105 | Parameters that pass are a page of at least 1 and a limit between 1 and 50 |
| SwapController.ListCheckCases | backend/controllers/swapRequestController.js:89-105 | The defaults are page 1 and limit 10. A number out of bounds is refused and numbers in bounds pass unchanged. NaN passes the bounds check |
| SwapController.HandleList | backend/controllers/swapRequestController.js:86-128 | Out of bounds answers 400 and NaN answers 500. Otherwise 200 with the listing as the code computes it (every item tagged 'received'), type defaulting to 'all' |
| SwapController.TransitionErrorReply | backend/controllers/swapRequestController.js:157-182 | 'Swap request not found' maps to 404, the expected unauthorized message to 403, the non-pending message to 400, and anything else to 500 |
| SwapController.UnauthorizedMessages | backend/controllers/swapRequestController.js:164 | The service's unauthorized message equals the one the handler tests for iff the action is not cancel |
| SwapController.TransitionReplies | backend/controllers/swapRequestController.js:157-182 | An unknown request answers 404; the wrong user 403 for accept and reject but 500 for cancel. A non-pending request answers 400 and malformed id text 500 |
| SwapController.HandleTransition | backend/controllers/swapRequestController.js:135-184 | A missing id answers 400. A success answers 200 with the saved record, which replaces the stored one. An error answers its mapped status and changes nothing |

## Left out

- JWT signing, and the token in the register and login replies, are left out: token contents are opaque to this model. Verification is a parameter of the middleware.
- bcrypt is a parameter: hashing in register and reset, and the comparison in the corrected login.
- The email regular expression and `new URL(...).protocol` are parameters of the schema (`Validators`).
- `JSON.parse` of the availability field is a parameter returning `None` when it throws. A JSON value that is not a complete availability object is not modelled.
- The text-to-number step of `parseInt` is left out. The list handler takes its page and limit already parsed: absent, a number, or NaN.
- Passing NaN on to the service: the model assumes the database driver refuses `skip(NaN)`, so the handler answers 500. NaN arithmetic inside the driver is not modelled.
- `populate` projections (the requester's and recipient's name, photo and skills in a listing) are left out. A listed request carries the parties' ids.
- Timestamps are a logical clock that advances by one on every write. Ties in `createdAt` and wall-clock time are not modelled, so newest first is reverse creation order.
- Concurrency between requests is left out: every handler runs to completion against one state. `updatedUser` is null only when a user disappears between the lookup and the update, so that TypeError cannot arise here.
- Deleting users is not modelled. A request whose requester or recipient was deleted would populate to null and make the transitions throw a TypeError.
- Strings are sequences of code points. JavaScript's `.length` counts UTF-16 code units, and `toLowerCase` is modelled on ASCII letters only.
- A 12-byte ObjectId string (a length-12 text that Mongoose also casts) is not modelled. Only 24-digit hex text casts.
- The file-system removal in `deleteProfilePhoto` (`path.join`, `existsSync`, `unlinkSync`) is I/O. The method returns the file name it would remove.
- Extra error fields in 500 answers are not modelled. The profile update adds `error.message`, and the swap handlers add one depending on `NODE_ENV`. The reply carries only the fixed message.
- Logging (`console.log`) is left out.
- ToObject: the `createdAt` and `updatedAt` keys that `timestamps: true` adds and the `__v` version key are not modelled. A user carries no timestamps here, so toObject and toJSON hold only the paths listed.
- The `role` discriminator key is always `User`. Admin users (AdminUser.js) are not part of this model.
- `getSkills` and `getUsers` in authController.js, the routes and the seeder are not part of this model.
- homeController.js calls `getSkillMatches` with a signature that does not fit its definition. The model gives matching the caller's id text and the collection directly.
- The service functions reject no `limit` of 0 on their own. `SwapService.ListEntries` and `SwapService.SwapStore.List` require `limit >= 1`, which the handler's bounds check guarantees.
- The service imports `'../models/SwapRequest.js'` while the file is `swapRequest.js`. On a case-sensitive file system the import fails; the model assumes it resolves.

## Findings

| source | as written | input that shows it | evidently intended | confidence | as-written member | corrected member |
|---|---|---|---|---|---|---|
| backend/controllers/swapRequestController.js:29 | `requesterId === recipientId` compares the ObjectId `req.userId` with a string from the body, which is never strictly equal | a user posts `recipientId` equal to their own id | refuse with 400 'Cannot create a swap request to yourself' | not executed | SwapController.SelfRequestCreated | SwapController.HandleCreateCorrected |
| backend/service/swapRequestService.js:155 | `request.requester.toString() === userId` stringifies the populated requester document, not its id, so every request is tagged 'received' | a request the listing user sent | tag it 'sent' | not executed | SwapService.ListingTagsAsWritten | SwapService.ListedTags |
| backend/controllers/authController.js:101-105 | the password comparison is commented out, so login succeeds for a registered email with any password | stored user ann@x.io, password 'wrong!' that bcrypt rejects | refuse with 400 'Invalid email or password' | not executed | AuthController.LoginAcceptsWrongPassword | AuthController.LoginVerified |
