# Social network backend and client: a Dafny model of the rules under the plumbing

This project models the deterministic rules of an Express/Sequelize social-network API and of its
Vue client, and proves properties of them in Dafny 4.11.

- **Session lifecycle.** `login` issues a signed access token and a refresh token. It records both
  in the refresh-token table and in a per-user cache entry `{ accessToken, refreshToken, isRevoked }`.
  `refreshToken` is a state machine: token required, not registered, expired (the row is deleted),
  revoked, or a new access token without rotation. Both handlers are methods of a class over the
  two stores (`AuthController.AuthService`). Their contracts tie them to pure step functions, and
  lemmas about those functions cover properties that span several calls.
- **Request guards.** `isLoggedIn`, `hasRole` with its role hierarchy, the older token middleware,
  and the image type check. The middlewares act on an `Http.Exchange` (`req.user`, the responses
  sent, the calls to `next`). Each is proved to send exactly one response or call `next` exactly
  once.
- **Pagination.** The paginator service, and the inline page rule of the posts, users and comments
  listings. That rule compares the page with the real quotient `count / limit`. It is modelled
  literally and restated over integers by cross-multiplying.
- **Controller rules.**
  - The owner-or-admin check, answering 404 before 403.
  - The `x = new || old` merges.
  - The vote validation, where only the string `'-1'` passes.
  - The vote upsert, which keeps one vote per (user, post).
  - Report de-duplication.
  - The ordered checks of a password change.
- **Models.** Column validators, unique columns, defaults, and the `toJSON` projections that hide
  `id`, `password` and foreign keys.
- **Client.** The auth store's state, mutations and actions (a class), and the router's
  `beforeEach` guard.

JavaScript values are modelled explicitly in `Js`:
- `Value` covers undefined, null, booleans, integers, strings and objects.
- Truthiness, `||`, loose equality with a string, and `Number()` are written out for these values.
- `JSON.stringify` drops undefined properties.
- ORM rows and request bodies are `map<string, Value>`.

Foreign calls become parameters or abstract inputs:
- `jwt.verify` is a `Verified` input.
- `jwt.sign` is the `AccessToken` datatype of its claims.
- Time is the current instant in milliseconds.
- Fresh UUIDs are parameters.
- The password comparison is a function parameter.
- `isEmail`, `isStrongPassword`, `isDate` and the name pattern are a `Checks` parameter.

Time-to-live arithmetic uses unbounded integers.

The client sends a `remember` flag with its login request (client/src/api/auth.js:9). The server's
`login` (app/controllers/auth.controller.js:14-39) never reads it and always creates a refresh
token; the model follows the server.

## Model

| member | source | states |
|---|---|---|
| `RefreshTokens.TokenLifetime` | app/models/refreshtokens.js:22-24 | a token created at t with a lifetime of s seconds is expired exactly at instants after t + 1000·s; at its expiry instant it is not expired |
| `RefreshTokens.IsExpired` | app/models/refreshtokens.js:22-24 | a token is expired only once the current instant is strictly past its expiry date; at or before it, it is not |
| `RefreshTokens.Created` | app/models/refreshtokens.js:61-76 | a user without an id makes it throw and inserts nothing; otherwise it inserts one row for that user expiring JWT_REFRESH_EXP seconds after now, returns that row's token, and leaves every other row alone |
| `RefreshTokens.RefreshTokenTable.FindByToken` | app/controllers/auth.controller.js:83 | finds a row exactly when the token is registered, and returns that row |
| `RefreshTokens.RefreshTokenTable.CreateToken` | app/models/refreshtokens.js:41-76 | the table after the call and the token returned are those of `Created`; every row keeps a non-null owner |
| `RefreshTokens.RefreshTokenTable.Destroy` | app/controllers/auth.controller.js:90 | removes exactly the given token's row |
| `AuthController.Sign` | app/controllers/auth.controller.js:24 | the access token carries the user's id as `uuid` and the role; it is issued at the current second with lifetime JWT_EXP |
| `AuthController.FindByUsername` | app/controllers/auth.controller.js:16 | a found user has the requested username; nothing is found only when no user has it |
| `AuthController.FindById` | app/controllers/auth.controller.js:96 | a found user has the requested id; nothing is found only when no user has it |
| `AuthController.FindOwnId` | app/controllers/auth.controller.js:96 | with unique ids, looking a user up by their own id finds that user |
| `AuthController.LoginStep` | app/controllers/auth.controller.js:14-39 | a body without a username gives 500 (the ORM refuses a `WHERE` on undefined); 401 exactly for an unknown username or a wrong password; 500 exactly for matching credentials of a user without an id, when `createToken` throws; refusals change neither store; on success a new refresh token is inserted and the cache entry is overwritten with the new tokens and `isRevoked` false; the reply carries exactly the user id and tokens written |
| `AuthController.RefreshStep` | app/controllers/auth.controller.js:75-113 | each reply holds exactly when its condition does: 403 for a null token, an unregistered token, an expired token (whose row is deleted), or a live token whose owner's cache entry is revoked; 500 for a missing token or a token whose owner is not found; success exactly for a live token whose owner is found and not revoked. On success the access token is signed for that owner, the refresh token is kept, and the owner's cache entry is rewritten as not revoked. Other refusals change nothing |
| `AuthController.ExpiredThenNotRegistered` | app/controllers/auth.controller.js:89-92 | after an expired-token refusal, the same token is then "not registered" |
| `AuthController.LoginThenRefresh` | app/controllers/auth.controller.js:97-109 | a refresh made with the token a login returned, before it expires, yields a new access token and the same refresh token, whatever the cache held before the login |
| `AuthController.AuthService.Login` | app/controllers/auth.controller.js:14-39 | the two stores and the reply are those of `LoginStep` |
| `AuthController.AuthService.Refresh` | app/controllers/auth.controller.js:75-113 | the two stores and the reply are those of `RefreshStep` |
| `Authenticate.IdentityOf` | app/middlewares/authenticate.middleware.js:20-23 | `req.user` takes `id` from the payload's `uuid` and `role` from its `role` |
| `Authenticate.LoggedInStep` | app/middlewares/authenticate.middleware.js:10-27 | no token gives 403 "No token provided"; a failed verification gives 401; it continues exactly when a token is given and verifies |
| `Authenticate.IsLoggedIn` | app/middlewares/authenticate.middleware.js:10-27 | exactly one response with `req.user` unchanged, or exactly one `next` call with `req.user` the decoded identity |
| `Authenticate.HasRoleStep` | app/middlewares/authenticate.middleware.js:34-51 | 500 when the user, its id or its role is missing; continues exactly when the role matches or implies the required one; otherwise 403 |
| `Authenticate.HasRole` | app/middlewares/authenticate.middleware.js:34-51 | takes exactly the step of `HasRoleStep` and never modifies `req.user` |
| `Authenticate.HasRoleFollowsRank` | app/middlewares/authenticate.middleware.js:40-46 | for the roles user and admin, `hasRole` admits exactly the roles ranked at least as high as the one required; `hasRole('admin')` rejects `user` with 403 |
| `Authenticate.LoggedInIdentityNeedsClaims` | app/middlewares/authenticate.middleware.js:36-38 | an identity built by `isLoggedIn` passes `hasRole` only when the payload had a `uuid` and a `role` |
| `AuthMiddleware.AuthStep` | app/middlewares/auth.middleware.js:9-22 | no token gives 401 "Authentication failed"; a failed verification gives 403 with the error; it continues exactly when a token verifies |
| `AuthMiddleware.CheckToken` | app/middlewares/auth.middleware.js:9-22 | exactly one response or one `next` call; on success `req.user` is the decoded payload verbatim |
| `AuthMiddleware.StatusCodesSwapped` | app/middlewares/auth.middleware.js:10-17 | it lets through the same requests as `isLoggedIn`, with the two refusal codes swapped |
| `AuthMiddleware.PayloadUserFailsHasRole` | app/middlewares/auth.middleware.js:19-20 | a payload without `id` stored as `req.user` makes `hasRole` answer 500 |
| `Paginator.GetPagination` | app/services/paginator.js:10-16 | the limit is the size, or 3 when none is given; the offset is page × limit |
| `Paginator.CeilOfQuotient` | app/services/paginator.js:29 | `Math.ceil(a / b)` is the least count of b-sized pages covering a |
| `Paginator.GetPagingData` | app/services/paginator.js:26-41 | totals and rows pass through; `totalPages` is the index of the last page (−1 with no rows); the next link is always there and points one page on; the previous link exists exactly for a page past the first and points one page back |
| `Listing.ListPage` | app/controllers/posts.controller.js:48-96 | the limit is the configured page size and the offset is page × limit, for the page given (0 when missing) |
| `Listing.PageOf` | app/controllers/posts.controller.js:49 | a missing or unparsable page is page 0; a parsed number is used as it is |
| `Listing.QuotientBounds` | app/controllers/posts.controller.js:73 | comparing a page with `count / limit` is comparing page × limit with count |
| `Listing.ListPageByCounting` | app/controllers/comments.controller.js:17-61 | it falls through exactly when a positive page starts past the rows; the previous link exists exactly for a positive page; the next link exists exactly when the next page starts within the rows; each link targets the adjacent page |
| `Listing.RowsReachable` | app/controllers/posts.controller.js:84-96 | every row lies on a page that answers, reached from page 0 by following next links |
| `UsersController.UsersPage` | app/controllers/users.controller.js:15-58 | pages of 2: offset page × 2, and the same fall-through and next-link rules over integers |
| `Access.Authorize` | app/controllers/posts.controller.js:155-164 | 404 exactly when the row is missing, whoever asks; allowed exactly for the row's owner or an admin; 403 otherwise |
| `Access.Refusal` | app/controllers/posts.controller.js:193-200 | the answers 404 with the not-found message and 403 "Insufficient rights" |
| `PostsController.VoteRefusal` | app/controllers/posts.controller.js:289-295 | a refused vote is answered 422 |
| `PostsController.CheckVote` | app/controllers/posts.controller.js:289-295 | a number is refused as not a string exactly when the vote is a number; only a string can be accepted |
| `PostsController.OnlyMinusOneAccepted` | app/controllers/posts.controller.js:289-295 | the vote checks let a value through exactly when it is the string '-1' |
| `PostsController.DocumentedVotesRefused` | app/controllers/posts.controller.js:276-295 | '0' and '1', documented as valid, are refused; every number is refused as not a string |
| `PostsController.FindVote` | app/controllers/posts.controller.js:304 | finds a vote of the (user, post) pair exactly when one exists |
| `PostsController.Upsert` | app/controllers/posts.controller.js:304-314 | with no vote for the pair one is appended (201); otherwise that vote's value is overwritten in place (200) |
| `PostsController.UpsertKeepsOneVotePerPair` | app/controllers/posts.controller.js:306-312 | after the upsert no pair has two votes, the pair's vote holds the new value, and every other vote is unchanged |
| `PostsController.MergedContentAsWritten` | app/controllers/posts.controller.js:202 | as written: the new content when one is given, else the post's `username` |
| `PostsController.OmittedContentFailsAsWritten` | app/controllers/posts.controller.js:202 | as written, an update without content writes undefined into a valid post's content, which the validators reject |
| `PostsController.MergedContent` | app/controllers/posts.controller.js:188-202 | the new content when one is given, else the stored content |
| `PostsController.UpdateKeepsValidPost` | app/controllers/posts.controller.js:202-204 | with the stored content as fallback, a saved update keeps a valid post valid, and an update without content leaves the post untouched |
| `PostsController.PostsService.DeletePost` | app/controllers/posts.controller.js:147-172 | a malformed id falls through; then 404, then 403 per `Authorize`; an allowed deletion removes exactly that post and answers 204 |
| `PostsController.PostsService.UpdatePost` | app/controllers/posts.controller.js:181-219 | corrected fallback (see Findings): 404/403 per `Authorize`; the content merged with the stored content is saved when unchanged or valid (200 with the row), else 500 and nothing changes |
| `PostsController.PostsService.HandleVote` | app/controllers/posts.controller.js:282-318 | the vote is checked before the post is looked up (422, then 404); the votes become those of `Upsert`, answered 201 or 200; one vote per pair is kept |
| `PostsController.PostsService.ReportPost` | app/controllers/posts.controller.js:327-351 | 404 for a missing post; the reports become those of `Reporting`, answered 200 with a message or 201 with the new row; no report is ever duplicated |
| `Reports.CountReports` | app/controllers/posts.controller.js:341 | the count is zero exactly when the pair has no report |
| `Reports.Reporting` | app/controllers/comments.controller.js:213-219 | an existing report leaves the table unchanged ("already reported"); otherwise exactly the new report is appended and returned |
| `Reports.ReportingKeepsNoDuplicates` | app/controllers/posts.controller.js:341-347 | the table never holds one user's report of one target twice, and after the call the report is there |
| `Reports.ReportingTwice` | app/controllers/comments.controller.js:213-219 | a second identical report changes nothing and is answered "already reported" |
| `UsersController.OwnerRefusedAsWritten` | app/controllers/users.controller.js:116 | as written, an owner who is not an admin fails the rights check on their own account, though the owner rule admits them |
| `UsersController.RightsAsWritten` | app/controllers/users.controller.js:116 | as written: admits exactly an admin, or a requester whose id claim is the route parameter string itself |
| `UsersController.DeleteUserAsWritten` | app/controllers/users.controller.js:101-127 | as written: a malformed id falls through; it answers 500 exactly for an existing user and a requester passing the as-written rights check, and then that row is removed; every other answer leaves the table unchanged |
| `UsersController.DeleteUserAsWrittenNever204` | app/controllers/users.controller.js:109-126 | as written, deletion never answers 204: a non-admin is refused with 403, and an admin's deletion removes the row and answers 500 |
| `UsersController.MergeUser` | app/controllers/users.controller.js:158-162 | each of username, email, role, firstName and lastName takes the supplied value when truthy and keeps its old value otherwise; every other column is unchanged |
| `UsersController.MergeKeepsValidUser` | app/controllers/users.controller.js:158-164 | a merge whose changed columns pass validation keeps a valid user valid |
| `UsersController.LoadedJson` | app/controllers/users.controller.js:148-151 | the answer holds exactly the loaded columns that are defined, each with the loaded value |
| `UsersController.CheckPasswordChange` | app/controllers/users.controller.js:207-220 | each outcome holds exactly when its condition does: missing passwords (400) for a non-admin without both; bad credentials (401) for a non-admin whose old password does not match; identical passwords (400) for anyone past those checks whose two values are strictly equal; an invalid new password (500) when the changed value fails the validators; otherwise the change is accepted |
| `UsersController.PasswordRefusal` | app/controllers/users.controller.js:209-220 | 400 for missing or identical passwords, 401 for bad credentials, 500 for a new password the validators refuse |
| `UsersController.AdminSkipsOldPassword` | app/controllers/users.controller.js:207-220 | an admin is never refused for a missing or wrong old password; an admin who gives neither password gets the identical-passwords 400 |
| `UsersController.PasswordChangeKeepsValidUser` | app/controllers/users.controller.js:222-223 | an accepted password change keeps a valid user valid |
| `UsersController.UsersService.DeleteUser` | app/controllers/users.controller.js:101-127 | corrected rights check and answer (see Findings): 404, then 403 unless the requester owns the loaded account or is admin; an allowed deletion removes exactly that user and answers 204 |
| `UsersController.UsersService.UpdateUser` | app/controllers/users.controller.js:137-177 | never 403 (no rights check); 404 for a missing user; changed columns failing validation give 500, and a changed e-mail or username held by another user gives 422; otherwise the merged row is stored and returned; the table keeps e-mails and usernames unique |
| `UsersController.UpdateKeepsUniqueUsers` | app/models/users.js:41-73 | an update whose changed e-mail and username are held by no other user keeps both columns unique across the table |
| `UsersController.UsersService.UpdateUserPassword` | app/controllers/users.controller.js:186-229 | corrected rights check (see Findings): 404, then 403 unless owner or admin, then the outcome of `CheckPasswordChange`; only an accepted change replaces the stored password with the new one |
| `CommentsController.NewComment` | app/controllers/comments.controller.js:110 | the created comment belongs to the post and is authored by the requester, with the given content |
| `CommentsController.NewCommentValid` | app/models/comments.js:40-63 | a new comment is valid exactly when its content is and the post id is an integer |
| `CommentsController.UpdateKeepsAllValid` | app/controllers/comments.controller.js:146-148 | a saved content update keeps every stored comment valid |
| `CommentsController.CommentsService.AddComment` | app/controllers/comments.controller.js:102-116 | an undefined post id gives 500, an unknown post 404; otherwise exactly one comment by the requester is stored on that post (or refused by the validators with 500) and answered in its JSON form |
| `CommentsController.CommentsService.UpdateComment` | app/controllers/comments.controller.js:125-156 | 404/403 per `Authorize`; the content is replaced only when new content is given and it passes validation; every comment stays valid |
| `CommentsController.CommentsService.DeleteComment` | app/controllers/comments.controller.js:165-190 | 404 before the owner-or-admin check; an allowed deletion removes exactly that comment and answers 204 |
| `CommentsController.CommentsService.ReportComment` | app/controllers/comments.controller.js:199-223 | 404 for a missing comment; the reports become those of `Reporting`; no report is ever duplicated |
| `PostsModel.ContentBounds` | app/models/posts.js:42-50 | valid content is a string of 20 to 400 characters, not all blank |
| `PostsModel.PostJson` | app/models/posts.js:23-25 | the JSON omits `id` and `userId` and keeps every other defined attribute unchanged |
| `CommentsModel.CommentJson` | app/models/comments.js:19-26 | the JSON omits `id`, `userId` and `postId` and keeps every other defined attribute unchanged |
| `AttachmentsModel.Create` | app/models/attachments.js:21-73 | an invalid row is refused; a valid row whose unique column clashes is refused as a duplicate; otherwise it is appended |
| `AttachmentsModel.CreateKeepsOnePerPost` | app/models/attachments.js:61-68 | a stored attachment's post has no other attachment, and the table keeps at most one attachment per post |
| `AttachmentsModel.AttachmentJson` | app/models/attachments.js:17-19 | the JSON omits `id` and `postId` and keeps every other defined attribute unchanged |
| `UsersModel.ValidUserFields` | app/models/users.js:41-106 | a valid user has a non-blank username of at most 30 characters, a non-blank e-mail of at most 60, a non-blank password, role user or admin, and names of at most 30 characters when present |
| `UsersModel.WithDefaults` | app/models/users.js:75-84 | an undefined role becomes 'user'; a given role and every other column except `uuid` are kept |
| `UsersModel.UserJson` | app/models/users.js:25-27 | the JSON never contains `id` or `password` and keeps every other defined attribute unchanged |
| `Validation.InsertUnique` | app/services/errorHandler.js:10-12 | an insert fails with a unique-constraint error exactly when a present value of a unique column is already taken; otherwise the row is appended |
| `Validation.InsertKeepsUnique` | app/models/attachments.js:33-42 | an insert that succeeds keeps each unique column unique |
| `Validation.SaveColumn` | app/controllers/comments.controller.js:146-148 | an unchanged value saves nothing; a changed value is saved exactly when it passes its validators |
| `ImageValidator.CheckImage` | app/middlewares/imageValidator.middleware.js:12-31 | no image passes to `next`; more than one image gives 415; an array of at most one file gives 500, since it has no `data` to sniff; a single image passes exactly when its declared type is on the allow-list and a type on the list is detected from its bytes; a failed detection gives 500; any other refusal of a single image is the 415 "Unallowed file type" |
| `ImageValidator.OnlyAllowedTypesPass` | app/middlewares/imageValidator.middleware.js:24-26 | only jpg, jpeg and png pass; a missing declared type gives 415 |
| `ClientRouter.BeforeEach` | client/src/router/index.js:49-59 | /login and /signup are never redirected; it redirects to /login exactly when the page is not public and no user is stored; it makes exactly one decision |
| `ClientRouter.RedirectLandsOnPublicPage` | client/src/router/index.js:50-56 | a redirect lands on a page the guard lets through |
| `ClientAuthStore.WithAccessToken` | client/src/store/modules/auth.module.js:24 | the user gets the new access token and keeps every other property |
| `ClientAuthStore.SessionUser` | client/src/api/auth.js:13-17 | the session user has exactly the properties `userId`, `accessToken`, `refreshToken`, `role`, `username` and `email`, each with the reply's value |
| `ClientAuthStore.ServerLoginReplyNotStored` | app/controllers/auth.controller.js:31-35 | the reply the server's login sends lacks `role`, `username` and `email`, so the client never stores it as a session user |
| `ClientAuthStore.AuthStore.IsLoggedIn` | client/src/store/modules/auth.module.js:8 | the getter reads the flag; whenever it reads false, the store holds no user object |
| `ClientAuthStore.AuthStore.constructor` | client/src/store/modules/auth.module.js:3-5 | logged in exactly when a stored user exists, with that user; otherwise no user |
| `ClientAuthStore.AuthStore.LoginSuccess` | client/src/store/modules/auth.module.js:12-15 | logged in with the given user |
| `ClientAuthStore.AuthStore.LoginFailure` | client/src/store/modules/auth.module.js:17-20 | logged out with a null user |
| `ClientAuthStore.AuthStore.RefreshToken` | client/src/store/modules/auth.module.js:22-25 | logged in; only the user's access token changes |
| `ClientAuthStore.AuthStore.Logout` | client/src/store/modules/auth.module.js:27-30 | logged out with a null user |
| `ClientAuthStore.AuthStore.LoginAction` | client/src/store/modules/auth.module.js:34-43 | after the call to `auth/login`, a complete reply is stored as the session user and committed with `loginSuccess`; any other reply is committed as it came and nothing is stored; either way the action resolves true. A failed call commits `loginFailure` and rethrows the error's `response` |
| `ClientAuthStore.AuthStore.LogoutAction` | client/src/store/modules/auth.module.js:45-48 | commits `logout` before calling the API; the API's failure is swallowed and the stored user removed, so the store ends logged out with nothing stored and the action resolves |
| `ClientAuthStore.AuthStore.RefreshTokenAction` | client/src/store/modules/auth.module.js:50-56 | writes the new access token into the stored user, then commits `refreshToken`; with no stored user object it throws and changes nothing |

## Findings

| source | as written | input that shows it | evidently intended | confidence | as-written member | corrected member |
|---|---|---|---|---|---|---|
| app/controllers/posts.controller.js:202 | `post.content = content \|\| post.username`: a post has no `username`, so an update without content writes undefined, the `notNull` validator fails and the request is answered 500 | the owner sends `{}` to update a valid post | fall back on `post.content`, leaving the post unchanged | high; not executed | `PostsController.OmittedContentFailsAsWritten` | `PostsController.UpdateKeepsValidPost` |
| app/controllers/users.controller.js:116 | `req.user.id !== id` compares the token's numeric id claim with the UUID route parameter; the same test is at line 203 | a non-admin user whose id claim is 7 deletes or changes the password of their own account: 403 | compare with the loaded user's id | medium; not executed | `UsersController.OwnerRefusedAsWritten` | `UsersController.UsersService.DeleteUser` |
| app/controllers/users.controller.js:121 | `revokeAccess` is imported but not defined, so the call throws after `user.destroy()`, and the handler answers 500 | an admin deletes an existing user: the row is gone and the answer is 500 | answer 204 once the row is destroyed | high; not executed | `UsersController.DeleteUserAsWrittenNever204` | `UsersController.UsersService.DeleteUser` |

The as-written rules are kept as their own members: `MergedContentAsWritten`, `RightsAsWritten`
and `DeleteUserAsWritten`. The handlers (`PostsService.UpdatePost`, `UsersService.DeleteUser` and
`UsersService.UpdateUserPassword`) use the corrected rules. The corrected `DeleteUser` does not
invent a body for the missing `revokeAccess`.

## Left out

- `UsersController.UsersService.UpdateUser`: the body of the 422 answer (the ORM's list of unique-constraint errors) is modelled as undefined.
- `CommentsController.CommentsService.AddComment`: the 200 answer omits the ORM's timestamps and generated id; the post lookup by `req.body.postId` is membership in a set of post ids, without the database's type coercion.
- `PostsController.PostsService.HandleVote`: the `Votes` model declares no `vote` column, so the ORM would not persist the value. The model records the value the controller assigns.
- `ClientAuthStore.WithAccessToken`: spreading a string user copies its characters as indexed properties. The model adds none. This only matters when a login reply is a bare string.
- `ClientAuthStore.AuthStore.RefreshTokenAction`: the JSON round trip through local storage drops undefined properties at the top level only.
- `ImageValidator.CheckImage`: after the 500 that a failed detection sends, the second response the 415 branch attempts throws; this is folded into one `ServerError` outcome.
- Routes are wiring and are not modelled.
  - The users and comments routes name their parameter `:uuid`, while the handlers read `req.params.id`, so those handlers would always call `next()`.
  - The handlers here take the parameter as they read it.
  - No route mounts `isLoggedIn` before the handlers, which dereference `req.user`. The model assumes `req.user` is set, as an `Access.Requester`.
- Looking a row up by the route parameter is a map lookup. The ORM's `WHERE id = …` over the tables' key columns and its type coercion are not modelled.
- `comparePassword` is not defined in the users model file. It is a parameter `matches`, which assumes a definition the source lacks. As written, the call throws and the error handler answers 500 in two places: a login with any registered username (app/controllers/auth.controller.js:18), and a non-admin password change that gives both passwords (app/controllers/users.controller.js:213). The model describes the evidently intended comparison instead.
- Argon2 hashing, `jsonwebtoken` signing and verification, and UUID generation are not modelled. Tokens are the datatype of their claims, verification is an input, and fresh UUIDs are parameters.
- `isEmail`, `isStrongPassword` (declared with `args: false`), `isDate` and the name pattern are opaque checks (`UsersModel.Checks`).
- `isUUID` on the route parameter is folded into `Access.Target`.
- `notEmpty` treats ASCII whitespace as blank; other Unicode space characters are not modelled.
- Validators on non-string values of string columns are not modelled. The ORM would run them on the value's string form.
- Numbers are integers. `Number()` of a string is modelled for the empty string and decimal integers only; other strings are NaN.
- JSON arrays are not values here. A body vote `["-1"]` would loosely equal `'-1'` and pass the vote checks.
- The persistent cache's disk storage and 24-hour eviction are left out. The cache is a map from user id to entry.
- `isLoggedIn` does not consult the cache, so revocation only blocks a refresh. The model follows that code.
- Handlers that do not appear as members are left out. They are plain ORM reads or creates with a 404 check and no further rule: `signup`, `publish`, `getPostById`, `getPostVotes`, `getPostComments`, `getPostReports`, `getUserById`, `getCommentById`.
- `logout` (routed but not defined) and the body of `revokeAccess` (imported but not defined) are not modelled.
- HATEOAS links and their URLs are not modelled; only the presence of the previous and next links and their target page numbers are. The comments listing's links point at `/posts`.
- ORM cascades on delete, timestamps and ordering are not modelled.
- A non-numeric `ITEMS_PER_PAGE` (NaN) is not modelled. The page size is a positive integer.
- The axios client and its interceptor, and the Vue bootstrap, are not modelled. Of the client's API module, only `auth.login` and `auth.logout` are modelled, inside the store's actions.
- `Listing.ListPage`, `UsersController.UsersPage`: a negative `page` (`parseInt('-3')` is −3) is answered as a listing with a negative offset. The source first passes that offset to the database query, whose outcome depends on the SQL dialect, which the code does not fix; the model does not promise what the database does with it.
