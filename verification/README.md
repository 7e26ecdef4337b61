# TaskFlow API request handling, modelled in Dafny

This project models the request-handling core of the TaskFlow task-management
API:

- the ownership-scoped task handlers: list, create, read, update and delete;
- the two read-only admin listings;
- registration and login;
- the request-body validation chains;
- the order in which the task and admin routers run `protect`, `authorize`,
  the validators and the handlers.

Every handler is a pure function. It takes an immutable store and a request,
and it returns a `Step`: the response (status code and payload) together
with the store after the request.

Modules, one per source file or component:

- `Common` (`common.dfy`): ids, `Option`, and first-match search.
- `Model` (`model.dfy`): users, tasks, the store, and the store defaults.
  Users and tasks are kept in insertion order. By the model's convention,
  `findOne` and `findById` return the first match in that order. The store
  itself does not promise an order. The choice makes no difference in a
  `Valid` store, where ids and emails are unique.
- `Query` (`query.dfy`): the store's list machinery, shared by all three
  listings. It covers equality filters, `countDocuments`, a stable
  newest-first sort, skip/limit, and the envelope arithmetic
  `pages = ceil(total / limit)`. `Listing` is the newest-first list of every
  match. Each page is a window of it, and pages 1 to `pages` joined give it
  back.
- `Http` (`http.dfy`): request bodies, identities, tokens, the response
  envelope and router outcomes.
- `Validators` (`validators.dfy`): `validate` and the four validation chains,
  including the `trim` sanitizer.
- `Gates` (`gates.dfy`): `protect` and `authorize`, modelled abstractly.
- `TaskController`, `AdminController`, `AuthController`: the handlers.
- `TaskRoutes`, `AdminRoutes`: the two routers.

These are parameters and are not modelled:

- The clock: `now` is the creation time.
- Password hashing: `hash`.
- The bcrypt comparison: `matchPassword`.
- express-validator's `isEmail`, `normalizeEmail` and `isISO8601`: the
  `Checks` record.
- Token verification: the request carries the identity it proved, or `None`.

Two facts about the code shape the model:

- Title trimming. In `validateTask` the `notEmpty()` check runs before
  `trim()` (utils/validators.js:41-44). A whitespace-only title therefore
  passes validation and is handed on as the empty string, which is what
  `Validators.BlankTitleAccepted` states. The model then stores that empty
  title, because store schema validation is not modelled (see
  `TaskController.CreateTask` under "Left out").
- Task owner on update. `updateTask` passes the whole request body to
  `findByIdAndUpdate` (controllers/taskController.js:125-131), so a `userId`
  in the body replaces the owner. `TaskController.UpdateCanTransferOwnership`
  states this, and `UpdateTwice` is idempotent only for bodies that keep the
  caller as owner.

## Model

| member | source | states |
|---|---|---|
| Query.Count | controllers/taskController.js:31 | `countDocuments`: never more than the stored tasks, and zero exactly when no task matches the filter |
| Query.Select | controllers/taskController.js:11-25 | the filtered result holds every matching task exactly as often as the store does, and nothing that fails the filter; its length is `Count` |
| Query.SortNewest | controllers/taskController.js:26 | `sort({createdAt: -1})`: a permutation of its input whose creation times never increase |
| Query.Slice | controllers/taskController.js:27-28 | `skip`/`limit`: the page has `min(limit, max(0, n - skip))` entries, which are entries `skip`, `skip+1`, … of the ordered result |
| Query.CeilDiv | controllers/taskController.js:38 | `Math.ceil(total / limit)`: the smallest page count whose pages cover `total` |
| Query.PageNumber | controllers/taskController.js:8 | an absent page reads as 1, and a given page is kept |
| Query.PageSize | controllers/taskController.js:8 | an absent limit reads as 10, and a given limit is kept |
| Query.Truthy | controllers/taskController.js:13-19 | a status or priority filter is applied exactly when the query value is present and non-empty |
| Query.Listing | controllers/taskController.js:22-26 | `find(query).sort({createdAt: -1})` before paging: every matching task exactly as often as stored, nothing else, with creation times never increasing |
| Query.Find | controllers/taskController.js:22-38 | page `p` holds the consecutive entries `(p-1)*limit`, … of `Listing` (its `PageData`), so every listed task is stored and matches the filter; the page is newest-first; `total` counts all matches rather than only this page; count, page and pages follow the skip/limit/ceil arithmetic |
| Query.PagesInOrder | controllers/taskController.js:22-28 | any task on an earlier page is at least as new as any task on a later page |
| Query.PagesCoverListing | controllers/taskController.js:22-38 | the data `Find` returns for pages 1 to `pages` (collected by `AllPages`), joined in order, is exactly `Listing`: no match is skipped, shown twice or moved, and each stored match appears across the pages exactly as often as it is stored |
| Query.FindListsEveryMatch | controllers/taskController.js:22-31 | every matching task appears on some page between 1 and `pages` |
| Query.LastPageHoldsRemainder | controllers/taskController.js:22-38 | the last page holds `total mod limit` tasks, or a full page when `limit` divides `total` |
| Model.FindTask | controllers/taskController.js:76 | `findById` on tasks: a found position carries the id, and nothing is found exactly when no task has it |
| Model.FindUserByEmail | controllers/authController.js:21 | `findOne({email})`: the first account with that email, and none exactly when no account has it |
| Model.FindUserById | controllers/adminController.js:56 | `findById` on users: a found account carries the id, and none exactly when no account has it |
| Validators.Validate | utils/validators.js:4-13 | any collected error ends the chain with exactly those errors; with none, the sanitized body is passed on |
| Validators.Reject | utils/validators.js:6-9 | a failed chain is answered with 400 and the error list |
| Validators.Trim | utils/validators.js:44 | the result is the part of the input after its leading whitespace, has no whitespace at either end, and only whitespace was dropped after it |
| Validators.TrimIdempotent | utils/validators.js:44 | trimming twice gives the same as trimming once |
| Validators.TrimBlank | utils/validators.js:44 | a string trims to empty exactly when it is all whitespace |
| Validators.ValidateRegister | utils/validators.js:16-25 | passes exactly for a valid email and a password of at least 8 characters; on failure the list holds exactly the failing rules' messages, once each, in chain order (as `errors.array()` reports them); a passing body has its email normalised |
| Validators.ValidateLogin | utils/validators.js:28-37 | passes exactly for a valid email and a non-empty password; on failure the list holds exactly the failing rules' messages, once each, in chain order |
| Validators.ValidateTask | utils/validators.js:40-61 | passes exactly when the title as sent is non-empty and status, priority and due date are valid when present; on failure the list holds exactly the failing rules' messages, once each, in chain order; title and description are trimmed afterwards |
| Validators.ValidateTaskUpdate | utils/validators.js:64-86 | as for creation, but the title is optional and, when present, must be non-empty; on failure the list holds exactly the failing rules' messages, once each, in chain order |
| Validators.EmptyUpdatePasses | utils/validators.js:64-86 | an update body with no fields passes unchanged |
| Validators.BlankTitleAccepted | utils/validators.js:41-44 | a whitespace-only title passes creation validation and is handed on as the empty string |
| TaskController.OwnQuery | controllers/taskController.js:11-19 | a task passes the filter exactly when the caller owns it and it has the requested status and priority, where an absent or empty query value does not constrain its field |
| TaskController.GetTasks | controllers/taskController.js:6-44 | the listing never contains another user's task, honours truthy status/priority filters exactly, is the page-`p` window of the caller's newest-first matches (see `Query.PagesInOrder` and `Query.PagesCoverListing` for how pages fit together), counts all of the caller's matches, follows the pagination arithmetic, and leaves the store unchanged |
| TaskController.GetTasksListsEveryMatch | controllers/taskController.js:11-31 | an absent or empty filter leaves that field unconstrained: every own task matching the other filter is listed on some page |
| TaskController.CreateTask | controllers/taskController.js:49-69 | answers 201 with a new task owned by the caller, with a fresh id and the body's title, description, status, priority and due date (defaults for absent status and priority); it is appended and nothing else changes |
| TaskController.CreateReadsOnlyTaskFields | controllers/taskController.js:51-60 | bodies that agree on the five task fields create the same task, so a client-supplied owner id or role has no effect |
| TaskController.Guard | controllers/taskController.js:76-91 | existence is checked before ownership: 404 exactly when no task has the id, 403 exactly when it exists but belongs to someone else |
| TaskController.GetTaskById | controllers/taskController.js:74-100 | 404 / 403 / 200 exactly as the guard decides, 200 with the task itself, and the store never changes |
| TaskController.UpdateTask | controllers/taskController.js:105-141 | 404 and 403 as the guard decides, leaving the store unchanged; on 200 only the found task changes, to the body applied over it, and users and the id allocator are unchanged |
| TaskController.ApplyUpdate | controllers/taskController.js:125-131 | each field the body carries replaces the stored one, the owner id included; absent fields, the id and the creation time are kept |
| TaskController.ApplyUpdateIdempotent | controllers/taskController.js:125-131 | applying the same body twice equals applying it once |
| TaskController.DeleteTask | controllers/taskController.js:146-174 | 404 and 403 as the guard decides, leaving the store unchanged; on 200 exactly one copy of the found task is removed and nothing else changes |
| TaskController.CreatePreservesValid | controllers/taskController.js:53-60 | creation keeps ids unique and below the allocator |
| TaskController.UpdatePreservesValid | controllers/taskController.js:125-131 | updates keep the store valid |
| TaskController.DeletePreservesValid | controllers/taskController.js:165 | deletion keeps the store valid |
| TaskController.DeleteTwice | controllers/taskController.js:148-170 | after a successful delete no task has that id, and a second delete answers 404 and changes nothing |
| TaskController.UpdateTwice | controllers/taskController.js:107-131 | repeating a successful update with a body that keeps the caller as owner gives the same response and store |
| TaskController.UpdateCanTransferOwnership | controllers/taskController.js:125-131 | a body carrying another user's id hands the task to that user, and the same update repeated is refused with 403 |
| TaskController.OthersAreForbidden | controllers/taskController.js:76-91 | another user's read, update or delete of a freshly created task answers 403, not 404, and changes nothing; the creator reads it back |
| AdminController.Populate | controllers/adminController.js:27 | the owner is resolved to that user's id, email and role, and to nothing exactly when no such user exists |
| AdminController.AllQuery | controllers/adminController.js:12-20 | a task passes the filter exactly when it has the requested status and priority, an absent or empty query value leaving its field unconstrained; the owner is not constrained |
| AdminController.UserQuery | controllers/adminController.js:69-75 | a task passes the filter exactly when the given user owns it |
| AdminController.GetAllTasks | controllers/adminController.js:7-46 | no owner filter: every listed task is stored and matches the truthy filters, owners are resolved, the page is the page-`p` window of all newest-first matches (pages fit together as `Query.PagesInOrder` and `Query.PagesCoverListing` state), and the total and pagination follow the shared arithmetic; read-only |
| AdminController.CountMonotone | controllers/adminController.js:12-20 | a filter that admits more tasks never counts fewer |
| AdminController.GetAllTasksCoversEveryOwner | controllers/adminController.js:12-33 | the admin total is at least any one user's total under the same filters, and every matching task of any owner is listed on some page |
| AdminController.GetUserTasks | controllers/adminController.js:51-93 | 404 "User not found" exactly when the user is absent; otherwise the user's id, email and role plus the page-`p` window of that user's newest-first tasks (pages fit together as `Query.PagesInOrder` and `Query.PagesCoverListing` state), with all of them counted; read-only |
| AdminController.UserMissingIgnoresTasks | controllers/adminController.js:56-63 | for a missing user the response does not depend on the task collection |
| AuthController.Register | controllers/authController.js:16-48 | 409 and no change exactly when the email is on file; otherwise exactly one account is appended, built from the email and the hashed password with the default role, and the answer is its id, email and role |
| AuthController.GenerateToken | controllers/authController.js:5-10 | the token carries exactly the id, email and role it is given as its claims |
| AuthController.Login | controllers/authController.js:53-92 | never changes the store; 200 exactly when the first account with the email matches the password, with a token whose claims are that account's id, email and role; otherwise the one generic 401 |
| AuthController.LoginDoesNotRevealAccounts | controllers/authController.js:58-75 | an unknown email and a wrong password get the identical 401 "Invalid credentials" response |
| AuthController.RegisterPreservesValid | controllers/authController.js:21-34 | registration keeps emails and ids unique |
| AuthController.RegisterTwice | controllers/authController.js:21-28 | registering the same email again is a 409 that changes nothing |
| AuthController.RegisterThenLogin | controllers/authController.js:16-92 | after registering, login with the same password succeeds with a token for the new account's id, email and default role |
| Gates.Protect | routes/taskRoutes.js:14 | a request without a verified identity is stopped with 401, and one with an identity passes |
| Gates.Authorize | routes/adminRoutes.js:9 | an identity whose role is not in the allowed set is stopped with 403, and any other passes |
| TaskRoutes.Dispatch | routes/taskRoutes.js:14-182 | unauthenticated requests get 401 before anything else; only the five routes are answered; the store changes only on a successful create, update or delete; create and update answer 400 exactly when their validator fails, and created tasks carry a non-empty title as sent and an allowed status and priority |
| TaskRoutes.RoutesReachHandlers | routes/taskRoutes.js:94-182 | after `protect`, GET / reaches `getTasks`, GET /:id `getTaskById` and DELETE /:id `deleteTask`; POST / and PUT /:id reach `createTask` and `updateTask` only with a body that passed `validateTask` or `validateTaskUpdate`, and then with the sanitized body |
| TaskRoutes.UpdateValidationBeforeLookup | routes/taskRoutes.js:181 | an invalid update body gets 400 even when no task has the id |
| TaskRoutes.BodyIgnoredWithoutValidator | routes/taskRoutes.js:94-182 | listing, reading and deleting do not depend on the request body |
| AdminRoutes.Dispatch | routes/adminRoutes.js:8-87 | never changes the store; unauthenticated gets 401, an authenticated non-admin gets 403 on every path, and only an admin's GET reaches a listing |
| AdminRoutes.AdminReachesHandlers | routes/adminRoutes.js:50-87 | an admin's GET /tasks reaches `getAllTasks`, and GET /users/:id/tasks reaches `getUserTasks` |

## Left out

- Token signing, verification and expiry. The JWT library and the `protect` middleware are not part of this model. A request carries the identity its token proved, or none, and the token is kept as its claim set (id, email, role).
- `authorize` internals. The role middleware is not part of this model; it is modelled as role-set membership answered with 403.
- Password hashing and `matchPassword`. They live in the user model, which is not part of this model. Both are function parameters.
- `isEmail`, `normalizeEmail` and `isISO8601` are library checks and are parameters.
- Validation error objects keep only the field path and the message; express-validator's `value`, `location` and `type` are not modelled.
- TaskController.CreateTask: the store schema's `required` check on the title is not modelled. A title that is blank after trimming is stored here as the empty string, where the store would reject it.
- Store schema validation (`runValidators`, required fields, enum checks in the schema) and the central error handler (`next(error)`, status 500) are not modelled. The store defaults for status (`todo`), priority (`medium`) and role (`user`) are applied on creation.
- `updatedAt` timestamps are not modelled. `createdAt` is the `now` parameter.
- Ids are naturals. A path id that is not a valid object id makes the store throw, and that path to the error handler is not modelled.
- Query-string coercion is not modelled: `parseInt`, arithmetic on strings, repeated parameters, and non-string JSON values. Page and limit, when given, must be at least 1 on a request that reaches a listing handler, that is, one `protect` (and, on the admin routes, `authorize`) lets through; there `limit = 0` would divide by zero. Requests the gates stop are answered 401 or 403 whatever their query string holds.
- AuthController.Register: takes the email and password as present strings. The auth routes file that puts the validators in front of it is not part of this model, and a query with an undefined email depends on store query casting.
- AuthController.Login: takes the email and password as present strings, for the same reason as `Register`.
- Query.SortNewest: ties in `createdAt` keep store order. The store itself leaves tie order unspecified.
- Query.PagesCoverListing: like `Query.FindListsEveryMatch`, `TaskController.GetTasksListsEveryMatch` and `AdminController.GetAllTasksCoversEveryOwner`, it rests on one fixed tie order shared by every page. The program runs a separate sorted query per page, and the store may order tasks with equal `createdAt` differently each time, so a task tied across a page boundary could appear on two pages or on none. These cross-page guarantees hold in the store only when the matching tasks have distinct creation times. `Query.PagesInOrder` does not depend on tie order.
- Validators.Trim: the whitespace set is the ASCII whitespace plus U+00A0, U+FEFF, U+2028 and U+2029. The other Unicode space separators are not included.
- Validators.ValidateRegister: password length counts Unicode scalar values. The runtime's `isLength` counts code points but skips the variation selectors U+FE0E and U+FE0F, so the two counts differ only for passwords containing those two characters.
- Concurrency: each request is applied atomically, so the check-then-act gap between `findById` and the update or delete is not modelled.
- Routers: a request no route matches is passed on (`PassedOn`). What the application does with it afterwards is not modelled.
- `config/swagger.js` (documentation), `server.js` (process bootstrap) and `seeders/adminSeeder.js` (a one-shot script) are not modelled.
