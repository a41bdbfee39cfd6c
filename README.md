# Planit backend: authentication, tasks and profiles, in Dafny

This project models the service layer of the Planit backend, a to-do list
server. It covers three services and two sets of request schemas:

- **AuthService**: registration with a password, login with a password, and
  federated login (`validate`). A federated login finds or creates an account
  by its `providerAccountId`, then signs and stores tokens.
- **TaskService**: create, list (paged), get, update and soft delete of a
  user's tasks, plus that service's mapping of errors to HTTP exceptions.
- **UserService**: the signed-in user's profile, a partial profile update
  with an optional uploaded image, logout, and that service's error mapping.
- **The zod schemas** of `auth.validation.ts` and `task.validation.ts`.
  They are interpreted by a small model of zod's `object().parse`
  (`Zod.Parse`): unknown keys are stripped, and every failed check adds one
  issue.

The model follows this structure:

- Entities (`Model`): `User`, `Account`, `Task`, and the task status enum.
- Errors (`Errors`): one datatype for NestJS's HTTP exceptions, zod's error
  and errors raised by libraries.
- The database (`Database`): a class whose fields are the user, account and
  task tables and the unique email index. The services' methods read and
  write it through `modifies` clauses.
- Bcrypt and the JWT signer (`Crypto`) are function parameters.
  - `Crypto.Sound` states that a password matches its own hash. No service
    contract depends on it; only `Scenarios.LoginThenProfile` assumes it.
  - The access token lasts "2h" and the refresh token "30d"
    (`Crypto.AccessToken` and `Crypto.RefreshToken`, from
    `auth.service.ts:53-59`).
- Each service is a class over the database. Each of its methods states the
  result it returns for every branch of the source, and the new state of
  every table.

`Scenarios` chains the services into request sequences and proves how each
one ends.

Where the code and the documented behaviour of the system disagree, the
model follows the code:

- A taken email at registration gives an InternalServerError with
  "Registrasi gagal…", not a conflict. `checkExistingUser` throws a
  BadRequest, but `register`'s catch rethrows only zod errors.
- A login whose password breaks the password rules (for example "wrong1A")
  gives zod's error, not the wrong-credentials message. The LOGIN schema
  applies the registration password rules.
- Login rethrows every error unchanged. The test
  `error instanceof ZodError || UnauthorizedException` is always true. So a
  user without a password gets bcrypt's "Illegal arguments: string, object"
  error.
- A federated login gives an InternalServerError with "Validasi gagal…"
  when no account has its providerAccountId and some user already has its
  email.
- The VALIDATEUSER schema only asks for a non-empty email. It does not check
  the email's syntax.
- A password login returns an access token but does not store it. So a user
  created by `register` is refused the profile for good: no flow ever
  stores an access token for that user. A federated login stores tokens only
  for the user its account points to, and an account is only ever created
  together with a new user. A federated login with a registered user's email
  is refused, because that email is taken (`auth.service.ts:75-76`).
- The page count counts soft-deleted tasks, but the page itself lists only
  live tasks.

## Model

Source paths are relative to the repository root.

| member | source | states |
|---|---|---|
| Crypto.AccessToken | src/modules/auth/auth.service.ts:53-55 | the payload `{ id, email }` signed with expiry "2h" |
| Crypto.RefreshToken | src/modules/auth/auth.service.ts:57-59 | the same payload signed with expiry "30d" |
| Crypto.TokensDistinct | src/modules/auth/auth.service.ts:53-59 | with a signer that never reuses a token, a refresh token never equals an access token, and an access token determines the id and email it was signed for |
| Zod.Utf16LengthBounds | src/modules/auth/auth.validation.ts:5-7 | a string's JavaScript length (UTF-16 code units) is at least its number of code points and at most twice it, and equals it when every code point is in the Basic Multilingual Plane |
| Zod.StringIssues | src/modules/auth/auth.validation.ts:5-17 | a string field gets no issues exactly when it passes every check; each issue is reported at the field's key; there is at most one issue per check |
| Zod.Parse | src/modules/auth/auth.validation.ts:4-18 | parsing succeeds exactly when no field has issues; on success the result is the input restricted to the schema's keys; on failure a ZodError with at least one issue |
| Zod.SameChecksAcceptSame | src/modules/auth/auth.validation.ts:34-40 | two lists of string checks that differ only in their messages accept the same strings |
| AuthValidation.NameChecksIff | src/modules/auth/auth.validation.ts:5-7 | a name passes exactly when its JavaScript length is between 1 and 100 |
| AuthValidation.RegisterPasswordChecksIff | src/modules/auth/auth.validation.ts:11-17 | a password passes exactly when its JavaScript length is between 8 and 100 and it contains a capital A-Z and a digit 0-9 |
| AuthValidation.NonEmptyIff | src/modules/auth/auth.validation.ts:21-27 | a VALIDATEUSER string passes exactly when it is not empty |
| AuthValidation.RegisterAccepts | src/modules/auth/auth.validation.ts:4-18 | REGISTER accepts a body exactly when name, email and password are strings obeying their rules |
| AuthValidation.LoginAccepts | src/modules/auth/auth.validation.ts:30-41 | LOGIN accepts a body exactly when the email is an email and the password obeys the registration password rules |
| AuthValidation.LoginPasswordRuleIsRegisters | src/modules/auth/auth.validation.ts:34-40 | LOGIN's password checks differ from REGISTER's only in their messages, so they accept exactly the same passwords |
| AuthValidation.NonEmptyFieldIff | src/modules/auth/auth.validation.ts:20-28 | one VALIDATEUSER field has no issues exactly when it is a non-empty string, or is absent and optional |
| AuthValidation.ValidateUserAccepts | src/modules/auth/auth.validation.ts:20-28 | VALIDATEUSER accepts a body exactly when email, name, image, accessToken, provider and providerAccountId are non-empty strings and refreshToken, when present, is one too |
| AuthValidation.ValidateUserIgnoresEmailSyntax | src/modules/auth/auth.validation.ts:21 | VALIDATEUSER's verdict does not depend on what counts as an email |
| AuthValidation.IssuesIgnoreEmailCheck | src/modules/auth/auth.validation.ts:20-28 | the issues of a schema without an email check do not depend on the email predicate |
| AuthValidation.PasswordExamples | src/modules/auth/auth.validation.ts:11-17 | "Abcdef12" obeys the password rules; "wrong1A" (too short) and "abcdefgh1" (no capital) do not |
| AuthValidation.RegisterRequestRoundTrip | src/modules/auth/auth.service.ts:169-170 | an accepted registration body parses to the map of its three fields, read back as the request |
| AuthValidation.LoginRequestRoundTrip | src/modules/auth/auth.service.ts:206-209 | an accepted login body parses to the map of its two fields, read back as the request |
| AuthValidation.ValidateUserRequestRoundTrip | src/modules/auth/auth.service.ts:65-68 | an accepted federated login body parses to a map whose fields read back as the request |
| AuthValidation.ValidateRegister | src/modules/auth/auth.service.ts:169-170 | validation succeeds exactly when REGISTER accepts, returning the body's three fields; otherwise it returns the ZodError with its non-empty issues |
| AuthValidation.ValidateLogin | src/modules/auth/auth.service.ts:206-209 | validation succeeds exactly when LOGIN accepts, returning email and password; otherwise it returns the ZodError with its issues |
| AuthValidation.ValidateUser | src/modules/auth/auth.service.ts:65-68 | validation succeeds exactly when VALIDATEUSER accepts, returning the request read from the body; otherwise the ZodError |
| TaskValidation.StatusEnumIsTaskStatus | src/model/task.model.ts:11-14 | the UPDATE schema's enum values are exactly the names of the two task statuses |
| TaskValidation.TaskChecksIff | src/modules/task/task.validation.ts:6-8 | a task description passes exactly when it is not empty |
| TaskValidation.CreateAccepts | src/modules/task/task.validation.ts:4-9 | CREATE accepts a body exactly when userId is a positive number and task a non-empty string |
| TaskValidation.UpdateAccepts | src/modules/task/task.validation.ts:11-18 | UPDATE accepts a body exactly when id is a positive number and each optional field present has its type (a non-empty task, a status name, a boolean) |
| TaskValidation.CreateRequestRoundTrip | src/modules/task/task.service.ts:76-77 | an accepted create body parses to the map of its two fields, read back as the request |
| TaskValidation.UpdateRequestRoundTrip | src/modules/task/task.service.ts:155-156 | an accepted update body parses to its present fields, read back as the request |
| TaskValidation.ValidateCreate | src/modules/task/task.service.ts:76-77 | validation succeeds exactly when CREATE accepts, returning userId and task; otherwise the ZodError |
| TaskValidation.ValidateUpdate | src/modules/task/task.service.ts:155-156 | validation succeeds exactly when UPDATE accepts, returning the id and the present optional fields; otherwise the ZodError |
| Database.SelectTasksSpec | src/modules/task/task.service.ts:105-112 | the rows a task query returns are exactly the user's matching rows, each once, in ascending id order |
| Database.SelectTasksOnly | src/modules/task/task.service.ts:105-112 | every row the task query returns is one of the user's matching rows, stored under its id |
| Database.SelectTasksAll | src/modules/task/task.service.ts:105-112 | every matching row of the user is returned by the task query |
| Database.SelectTasksAscending | src/modules/task/task.service.ts:105-112 | the task query returns its rows in ascending id order |
| Database.LiveTasksAtMostAll | src/modules/task/task.service.ts:113-117 | a user never has more live tasks than tasks |
| Database.SelectTasks | src/modules/task/task.service.ts:105-117 | the reference selection of a user's rows (live only, or all) in id order, never more rows than ids below the bound |
| Database.Window | src/modules/task/task.service.ts:110-111 | the rows from `skip` on, exactly `take` of them or as many as remain |
| Database.WindowOfSelection | src/modules/task/task.service.ts:105-112 | a window of a selection still holds only matching rows, in ascending id order |
| Database.SelectTasksCount | src/modules/task/task.service.ts:113-117 | the selection has exactly one row per matching id |
| Database.Database.constructor | src/modules/auth/auth.service.ts:180-182 | the store starts empty, with both id counters at 1 |
| Database.Database.FindUserByEmail | src/modules/auth/auth.service.ts:127-129 | the user with that email when the unique index has it, otherwise none |
| Database.Database.FindUserById | src/modules/auth/auth.service.ts:133-135 | the user stored under the id, if any; in a valid store that user carries the id |
| Database.Database.FindAccount | src/modules/auth/auth.service.ts:159-162 | the account stored under the providerAccountId, if any; in a valid store it carries that providerAccountId and its user exists |
| Database.Database.CountUsersByEmail | src/modules/auth/auth.service.ts:35-37 | the count is 0 exactly when no user has the email, and 1 otherwise |
| Database.Database.FindManyTasks | src/modules/task/task.service.ts:105-112 | a negative `skip` is refused with the store's error; otherwise the user's live rows from position `skip`, `take` of them or as many as remain, each stored under its id, in ascending id order |
| Database.Database.FindFirstTask | src/modules/task/task.service.ts:43-45 | the task with the id when it belongs to the user and is not soft-deleted, otherwise none |
| Database.Database.CountTasks | src/modules/task/task.service.ts:113-117 | the number of the user's rows, soft-deleted ones included, and so never less than the number of live rows |
| Database.Database.CreateUser | src/modules/auth/auth.service.ts:180-182 | adds one user with the next id, the default role and no tokens; indexes its email and changes nothing else |
| Database.Database.CreateAccountWithUser | src/modules/auth/auth.service.ts:79-93 | adds one passwordless user and one account that points to it, and changes nothing else |
| Database.Database.UpdateUser | src/modules/auth/auth.service.ts:109-112 | replaces one user's row by the patched row and changes nothing else |
| Database.Database.UpdateUserByEmail | src/modules/user/user.service.ts:147-150 | patches the user with the email, or fails with the store's record-not-found error and changes nothing |
| Database.Database.CreateTask | src/modules/task/task.service.ts:79-84 | adds one live task with the next id and the default status, and changes nothing else |
| Database.Database.UpdateTask | src/modules/task/task.service.ts:163-173 | replaces one task by the patched task and changes nothing else |
| AuthService.RegisterCatch | src/modules/auth/auth.service.ts:192-199 | a zod error is rethrown; every other error becomes the InternalServerError "Registrasi gagal…" |
| AuthService.ValidateCatch | src/modules/auth/auth.service.ts:117-124 | a zod error becomes a BadRequest carrying its issues; every other error becomes the InternalServerError "Validasi gagal…" |
| AuthService.RegisterResponse | src/modules/auth/auth.service.ts:184-191 | the registered profile: id, name, email and role, with no image and no token |
| AuthService.LoginResponse | src/modules/auth/auth.service.ts:234-242 | the login profile: id, name, email and role with the access token just signed |
| AuthService.StoredProfile | src/modules/auth/auth.service.ts:141-149 | the profile of findUserById: id, name, email and role with the stored access token |
| AuthService.ResponsesHideSecrets | src/modules/auth/auth.service.ts:141-191 | none of the three profiles depends on the password hash or the refresh token |
| AuthService.AuthService.CheckExistingUser | src/modules/auth/auth.service.ts:33-51 | passes exactly when no user has the email; otherwise the BadRequest "Alamat email ini telah terdaftar." |
| AuthService.AuthService.FindUserByEmail | src/modules/auth/auth.service.ts:127-129 | the user with the email, if any |
| AuthService.AuthService.FindAccount | src/modules/auth/auth.service.ts:159-163 | the account with the providerAccountId, if any |
| AuthService.AuthService.FindUserById | src/modules/auth/auth.service.ts:131-157 | the profile with the stored access token of the user with the id, or the NotFound "Pengguna tidak ditemukan" |
| AuthService.AuthService.Register | src/modules/auth/auth.service.ts:165-200 | a rejected body gives zod's error; a taken email gives "Registrasi gagal…"; otherwise one user with the password's hash and no tokens, and a profile without a token; a failure changes nothing |
| AuthService.AuthService.Login | src/modules/auth/auth.service.ts:202-251 | in order: zod's error, the wrong-credentials Unauthorized for an unknown email, bcrypt's error for a passwordless user, the same Unauthorized for a wrong password; otherwise only the hashed refresh token is stored and the signed access token is returned; a failure changes nothing |
| AuthService.AuthService.FindOrCreateAccount | src/modules/auth/auth.service.ts:72-95 | an existing account for the providerAccountId is returned unchanged; otherwise a taken email gives the BadRequest; otherwise a new account and its passwordless user are created |
| AuthService.AuthService.StoreTokens | src/modules/auth/auth.service.ts:97-112 | stores the signed access token and the hash of the signed refresh token on the user, and nothing else |
| AuthService.AuthService.Validate | src/modules/auth/auth.service.ts:61-125 | zod's error gives a BadRequest with its issues; a taken email for a new providerAccountId gives "Validasi gagal…"; otherwise the found or created account, with tokens signed for the account's user id and the request's email stored on that user |
| TaskService.HandleError | src/modules/task/task.service.ts:54-68 | NotFound and BadRequest are rethrown; a zod error becomes a BadRequest carrying its issues; every other error becomes the generic "Terjadi kesalahan yang tidak terduga…", hiding the cause; the result is always an HTTP exception |
| TaskService.HandleErrorIdempotent | src/modules/task/task.service.ts:54-68 | mapping an already mapped error changes nothing |
| TaskService.ToTaskResponse | src/modules/task/task.service.ts:30-40 | the response carries the task's id, owner, text, status and isDeleted |
| TaskService.ToTaskResponseInjective | src/modules/task/task.service.ts:30-40 | distinct tasks give distinct responses |
| TaskService.Skip | src/modules/task/task.service.ts:102 | the skip is `(page - 1) * limit`, the rows of the earlier pages; it is negative exactly when the page is below 1, the case the store refuses |
| TaskService.Responses | src/modules/task/task.service.ts:123 | one response per task, in the same order, with the task's fields |
| TaskService.TotalPages | src/modules/task/task.service.ts:120 | the page count is the ceiling of total / limit |
| TaskService.TotalPagesIsLeast | src/modules/task/task.service.ts:120 | the page count is the least number of pages of `limit` rows that hold every row |
| TaskService.TotalPagesMonotone | src/modules/task/task.service.ts:120 | more rows never give fewer pages |
| TaskService.TotalPagesCoverVisible | src/modules/task/task.service.ts:113-120 | the pages counted hold every live task, since the count includes deleted ones |
| TaskService.DeletedTaskAddsAPage | src/modules/task/task.service.ts:113-120 | one live and one soft-deleted task at one row per page give total_page 2, while only one task is visible |
| TaskService.TaskService.CheckExistingTask | src/modules/task/task.service.ts:42-52 | the live task with that id owned by the user, or the NotFound "Tugas tidak ditemukan." |
| TaskService.TaskService.Create | src/modules/task/task.service.ts:70-90 | a rejected body gives a BadRequest carrying zod's issues; otherwise one new live task owned by the signed-in user (not the body's userId), and its response |
| TaskService.TaskService.List | src/modules/task/task.service.ts:92-133 | a page below 1 gives the generic InternalServerError, since the store refuses its negative skip; otherwise the page holds the live tasks after (page-1)*limit, at most limit, in id order, and the paging gives the limit, the page and the ceiling of the number of all the user's tasks over the limit; nothing changes |
| TaskService.TaskService.Get | src/modules/task/task.service.ts:135-147 | the response for the user's live task, or the NotFound; nothing changes |
| TaskService.TaskService.Update | src/modules/task/task.service.ts:149-179 | a rejected body or a missing task gives the mapped error and changes nothing; otherwise each present field replaces the task's, isDeleted is set to the body's value or false, and the response |
| TaskService.TaskService.Delete | src/modules/task/task.service.ts:181-209 | the user's live task is marked deleted and nothing else changes; otherwise the NotFound |
| UserService.ToUserResponse | src/modules/user/user.service.ts:21-31 | the profile carries id, name, email, role and image, and no token |
| UserService.ToUserResponseHidesSecrets | src/modules/user/user.service.ts:21-31 | the profile does not depend on the password or the tokens |
| UserService.HandleError | src/modules/user/user.service.ts:33-42 | Unauthorized and NotFound are rethrown; every other error becomes an InternalServerError wrapping it |
| UserService.HandleErrorInjective | src/modules/user/user.service.ts:33-42 | distinct errors map to distinct exceptions |
| UserService.UploadImage | src/modules/user/user.service.ts:126-143 | the uploaded file's secure URL, or the InternalServerError "Failed to upload image to Cloudinary" |
| UserService.UpdatedUserData | src/modules/user/user.service.ts:105-124 | fails exactly when a given file fails to upload; otherwise the patch replaces name, role and password (hashed) only when truthy and the image only when uploaded, and leaves the rest |
| UserService.UserService.Get | src/modules/user/user.service.ts:44-64 | an unknown email gives "User not found", a missing or empty access token "Token must be provided", and otherwise the profile, all as Unauthorized |
| UserService.UserService.Update | src/modules/user/user.service.ts:66-103 | a rejected body gives an InternalServerError wrapping zod's error; an unknown email the NotFound; a failed upload the wrapped upload error; otherwise only that user's row changes, as the field-by-field rule says |
| UserService.UserService.Logout | src/modules/user/user.service.ts:145-163 | clears only the user's access token; with no such user the store's error is wrapped as an InternalServerError |
| Scenarios.RegisterTwice | src/modules/auth/auth.service.ts:165-200 | registering a free email stores the password's hash; registering it again gives "Registrasi gagal…" |
| Scenarios.LoginThenProfile | src/modules/auth/auth.service.ts:224-242 | logging in with the stored password returns a signed access token, and the profile is still refused |
| Scenarios.AnaRegisters | src/modules/auth/auth.validation.ts:4-18 | a concrete body passes REGISTER and LOGIN |
| Scenarios.ShortPasswordLogin | src/modules/auth/auth.service.ts:206-209 | a login with "wrong1A" gives zod's error and changes nothing |
| Scenarios.FederatedRelogin | src/modules/auth/auth.service.ts:72-116 | a second federated login with the same providerAccountId but another email returns the first account and creates nothing |
| Scenarios.PasswordLoginOfFederatedUser | src/modules/auth/auth.service.ts:216-219 | a password login of a passwordless user gives bcrypt's error and changes nothing |
| Scenarios.LogoutEndsProfile | src/modules/user/user.service.ts:145-159 | after logout the profile is refused for a missing token |
| Scenarios.DeleteIsFinal | src/modules/task/task.service.ts:181-209 | after a delete, get, a second delete and an update setting isDeleted to false all give the NotFound |
| Scenarios.DeletedTaskStillCounted | src/modules/task/task.service.ts:102-128 | a created and deleted task leaves an empty first page that still counts one page; another user cannot get it |
| Scenarios.ListOnlyDeleted | src/modules/task/task.service.ts:102-128 | the owner of a store whose one task is soft-deleted gets an empty page of ten and total_page 1 |
| Scenarios.OnlyDeletedTask | src/modules/task/task.service.ts:113-120 | one soft-deleted task: no live rows, one row counted, one page of ten |

## Left out

- Logging (winston), the `createdAt`/`updatedAt` timestamps and their ISO strings: these are I/O and clock readings.
- Concurrency: each request runs to completion before the next. `list`'s two parallel queries read one state, and races between requests are not modelled.
- Uniqueness enforced by the store: the write methods require the email or providerAccountId to be free instead of raising a unique-constraint error. The services always check first.
- Store faults (a lost connection and the like). So the branches of `checkExistingUser`, `findUserById`, `create` and the other catches that wrap an unexpected store error cannot be taken in the model. The catches the model can take are reached by three kinds of error: errors the code itself raises; the store errors the model raises, namely the refusal of a negative `skip` in `list` and the "Record to update not found." of `logout`'s update by email (`user.service.ts:160-161`); and bcrypt's "Illegal arguments: string, object", which `login` receives for a user without a password. The exact wording of the store's negative-skip message is an approximation; `list` hides it behind its generic message anyway.
- Numbers are integers: zod's `number()` also accepts fractions, which the model does not have. Zod's built-in issue messages are left unset; only the schemas' own messages are modelled.
- The email syntax check of zod's `email()` is a parameter (`isEmail`), not a regular expression.
- The database's defaults (the user's default role, the task's default status) are constructor parameters.
- TaskService.TaskService.List: requires `limit > 0`. The controller accepts any integer from the query string: a zero limit makes `Math.ceil(total / 0)` Infinity or NaN, which is not a page count, and a negative `take` makes the store read backwards. Neither case is modelled. A page below 1 is modelled, as the failure above.
- UserService.UserService.Update: the profile update schema (`UserValidation.UPDATE`) is not part of this model. Its outcome is a parameter, and the upload service's answer is the `Upload` parameter.
- Bcrypt hashing and comparison and JWT signing are uninterpreted functions. Salt rounds, token verification and expiry checks are not modelled.
- Crypto.Primitives: `hash` and `sign` are deterministic in the model, but the program's are not. bcrypt.hash draws a fresh salt on every call (`auth.service.ts` lines 107, 174 and 227), and sign stamps the issue time. So where the model stores `hash(p)` or `sign(...)`, the program stores one of many possible values. For example, two users with the same password store the same hash in the model and different hashes in the program. No contract compares two hashes or two tokens made at different times, except `Crypto.TokensDistinct`, which assumes an injective signer.
- The task controller, the module wiring, `main.ts`, `app.module.ts`, the shared ValidationService and the user model are not part of this model. The services are modelled as called directly. Through the controller they act differently:
  - In `list`, `get` and `delete` (`task.controller.ts` lines 92, 111 and 150), the controller first overwrites the signed-in user's `user.id` with the path's `userId`. The authorization check that follows is then always true.
  - So those three act on the tasks of the user named in the path. The owner scoping that the service contracts state does not stop one signed-in user from listing, reading or deleting another user's tasks.
  - In `create` (lines 73-74), the controller sets the body's `userId` from the path, and the check against the signed-in user is real.
  - In `update` (lines 131-132), it sets the body's `id` from the path, and the check is real.
