# UserManagementAPI: the user store, its controller and its API-key gate

A Dafny model of the core of the UserManagementAPI sample:

- **the user store** (`UserService`): one shared list of `User` records and one id
  counter. It lists users by id, looks one up by id, creates, updates in place,
  deletes, and checks whether an e-mail is taken ignoring case, optionally leaving
  out one id. The list and counter are static, so every request sees the same
  store. The class `UserStore.UserService` models that one shared store. Its invariant
  (`Valid`) says three things: ids strictly ascend along the list; every stored id
  is among the ids ever issued (a ghost set); every issued id is below the counter.
- **the controller** (`UsersController`): for each endpoint, the fixed sequence of
  checks that maps the store's answers to 200, 201, 204, 400, 404 or 409 and a body.
- **the API-key gate** (`AuthenticationMiddleware.InvokeAsync`): a pure decision
  (`Authentication.Decide`) over the path, the header and query collections and the
  configured key, and a method that applies it to the HTTP context.
- **the User record** and the rules its validation attributes declare.

Files: `wrappers.dfy` (Option), `text.dfy` (ordinal ignore-case comparison),
`users.dfy`, `user_store.dfy`, `users_controller.dfy`, `authentication.dfy`.

Inputs the code takes from its environment are parameters:
- every reading of the clock is a `Time` value;
- the model-binding verdict `ModelState.IsValid` is a boolean `modelValid`;
- the framework's e-mail shape check is a function `emailShaped`;
- the configured key is an `Option<string>`, with None for a missing setting.

Modelling choices that follow the code:
- Creation timestamps are not claimed to precede update timestamps. Every timestamp is
  a separate clock reading, and nothing in the code orders them.
- The store's create does not reject a taken e-mail. Only the controller checks, so
  e-mail uniqueness is a property of the controller's actions
  (`UniqueEmails(old(...)) ==> UniqueEmails(...)`), not of the store's invariant.
- A header that is present is always used, even when it is empty (which yields
  "missing"); the query parameter is consulted only when no such header exists.
- Path exemption compares whole segments, ignoring case.

## Model

| member | source | states |
|---|---|---|
| `Users.NewUser` | Back-End-Development/UserManagementAPI/Models/User.cs:18-42 | a default-constructed user is active, takes its two timestamps from the clock, and fails validation for every e-mail shape check |
| `Users.Required` | Back-End-Development/UserManagementAPI/Models/User.cs:18 | definition of `[Required]` on a string: some character is not white space; stated by `Users.BlankNameFailsValidation` |
| `Users.NameValid` | Back-End-Development/UserManagementAPI/Models/User.cs:18-20 | definition: required and 2 to 100 characters; stated by `Users.NameLengthLimits` and `Users.BlankNameFailsValidation` |
| `Users.EmailValid` | Back-End-Development/UserManagementAPI/Models/User.cs:25-27 | definition: required and accepted by the shape check; stated by `Users.NewUser` |
| `Users.IsValid` | Back-End-Development/UserManagementAPI/Models/User.cs:18-27 | definition: every attribute of the record holds; stated by `Users.NewUser` and `Users.BlankNameFailsValidation` |
| `Users.BlankNameFailsValidation` | Back-End-Development/UserManagementAPI/Models/User.cs:18-20 | a name of white space only is rejected whatever its length |
| `Users.NameLengthLimits` | Back-End-Development/UserManagementAPI/Models/User.cs:19 | the name length limits 2 and 100 are inclusive |
| `Text.EqualsIgnoreCaseReflexive` | Back-End-Development/UserManagementAPI/Services/UserService.cs:122 | every address equals itself ignoring case |
| `Text.EqualsIgnoreCaseSymmetric` | Back-End-Development/UserManagementAPI/Services/UserService.cs:122 | the ignore-case comparison is symmetric |
| `Text.EqualsIgnoreCaseTransitive` | Back-End-Development/UserManagementAPI/Services/UserService.cs:122 | the ignore-case comparison is transitive |
| `Text.EqualsIgnoreCase` | Back-End-Development/UserManagementAPI/Services/UserService.cs:122 | definition of the ordinal ignore-case comparison; stated by `Text.EqualsIgnoreCaseExactly` |
| `Text.EqualsIgnoreCaseExactly` | Back-End-Development/UserManagementAPI/Services/UserService.cs:122 | two strings compare equal exactly when they have the same length and each position holds the same character or the two cases of one ASCII letter (the model's folding; see ## Left out) |
| `Text.StartsWithIgnoreCase` | Back-End-Development/UserManagementAPI/Middleware/AuthenticationMiddleware.cs:35-36 | definition: the prefix equals the start of the string ignoring case; stated by `Authentication.SegmentMatching` |
| `UserStore.FindIndex` | Back-End-Development/UserManagementAPI/Services/UserService.cs:58 | the position found holds the id and no earlier position does; the length when none does |
| `UserStore.FirstWithId` | Back-End-Development/UserManagementAPI/Services/UserService.cs:58 | None exactly when no user has the id; otherwise the first user with that id |
| `UserStore.AnyEmailMatch` | Back-End-Development/UserManagementAPI/Services/UserService.cs:121-123 | true exactly when some user's e-mail equals the address ignoring case and that user is not the excluded id |
| `UserStore.EmailMatches` | Back-End-Development/UserManagementAPI/Services/UserService.cs:122-123 | definition of the condition inside `Any`; stated by `UserStore.AnyEmailMatch` and `UserStore.UserService.EmailExists` |
| `UserStore.InsertById` | Back-End-Development/UserManagementAPI/Services/UserService.cs:49 | inserting adds exactly the one element (multiset) and one position |
| `UserStore.InsertByIdKeepsOrder` | Back-End-Development/UserManagementAPI/Services/UserService.cs:49 | inserting into an id-ordered list keeps it id-ordered |
| `UserStore.OrderById` | Back-End-Development/UserManagementAPI/Services/UserService.cs:49 | the sorted list is a permutation of the input and ordered by id |
| `UserStore.OrderByIdKeepsAscending` | Back-End-Development/UserManagementAPI/Services/UserService.cs:49 | sorting a list whose ids already ascend returns it unchanged |
| `UserStore.RemoveAt` | Back-End-Development/UserManagementAPI/Services/UserService.cs:110 | removal drops exactly one position and keeps the others in their relative order |
| `UserStore.Overwrite` | Back-End-Development/UserManagementAPI/Services/UserService.cs:89-92 | definition of the four assignments; stated by `UserStore.UpdateThenGet` and `UserStore.UserService.UpdateUser` |
| `UserStore.SeedUsers` | Back-End-Development/UserManagementAPI/Services/UserService.cs:10-39 | the three seed users have ids 1 to 3 in ascending order, distinct e-mails and valid names |
| `UserStore.UserService.Seeded` | Back-End-Development/UserManagementAPI/Services/UserService.cs:10-41 | the initial store holds the seed users, the counter is 4, and the invariant holds |
| `UserStore.UserService.GetAllUsers` | Back-End-Development/UserManagementAPI/Services/UserService.cs:46-50 | sorting by id returns the stored list itself, since the invariant keeps it in ascending id order |
| `UserStore.UserService.GetUserById` | Back-End-Development/UserManagementAPI/Services/UserService.cs:55-59 | None exactly when no stored user has the id; under the invariant, the user with that id |
| `UserStore.UserService.EmailExists` | Back-End-Development/UserManagementAPI/Services/UserService.cs:117-124 | true exactly when a stored user other than the excluded id holds the e-mail ignoring case |
| `UserStore.UserService.CreateUser` | Back-End-Development/UserManagementAPI/Services/UserService.cs:64-74 | the new id is the counter's old value and exceeds every id ever issued; the counter grows by one; exactly the new record is appended; no e-mail check; invariant kept |
| `UserStore.UserService.UpdateUser` | Back-End-Development/UserManagementAPI/Services/UserService.cs:79-95 | false and no change for an absent id; otherwise only the target record changes: name, e-mail, flag and update time replaced, id and creation time kept |
| `UserStore.UserService.DeleteUser` | Back-End-Development/UserManagementAPI/Services/UserService.cs:100-112 | false and no change for an absent id; otherwise exactly that record is removed, the others keep their order, and the counter is not decreased |
| `UserStore.FirstWithIdAscending` | Back-End-Development/UserManagementAPI/Services/UserService.cs:58 | in a list with ascending ids, looking up an element's id finds that element |
| `UserStore.CreateThenGet` | Back-End-Development/UserManagementAPI/Services/UserService.cs:68-73 | after appending a record whose id exceeds all others, looking up that id returns it |
| `UserStore.DeleteThenGet` | Back-End-Development/UserManagementAPI/Services/UserService.cs:104-111 | after a delete, the deleted id is no longer found |
| `UserStore.UpdateThenGet` | Back-End-Development/UserManagementAPI/Services/UserService.cs:83-94 | after an update, the id finds the overwritten record and every other id its old record |
| `UserStore.AppendKeepsEmailsUnique` | Back-End-Development/UserManagementAPI/Services/UserService.cs:64-74 | appending a user whose e-mail nobody holds ignoring case keeps e-mails unique |
| `UserStore.AppendKeepsEmailsUniqueExactly` | Back-End-Development/UserManagementAPI/Services/UserService.cs:64-74 | on a list with unique e-mails, appending a user keeps them unique if and only if no stored user already holds its e-mail ignoring case (create itself checks nothing) |
| `UserStore.OverwriteKeepsEmailsUnique` | Back-End-Development/UserManagementAPI/Services/UserService.cs:89-92 | overwriting with an e-mail no other user holds keeps e-mails unique; a user may keep its own |
| `UserStore.PostIncrementInt32` | Back-End-Development/UserManagementAPI/Services/UserService.cs:68 | the counter increment as written stays within 32 bits and agrees with +1 modulo 2^32 |
| `UserStore.CounterWrapBreaksAscendingIds` | Back-End-Development/UserManagementAPI/Services/UserService.cs:68 | at int.MaxValue the written increment wraps to a smaller value, so ids no longer ascend |
| `UsersController.Status.Code` | Back-End-Development/UserManagementAPI/Controllers/UsersController.cs:37-257 | the codes of the `ProducesResponseType` attributes of every action except `TestException`'s 500 (see ## Left out): success statuses have codes 2xx, error statuses 4xx |
| `UsersController.ToDto` | Back-End-Development/UserManagementAPI/Controllers/UsersController.cs:75-83 | definition of the field-for-field copy; stated by `UsersController.ToDtoInjective` |
| `UsersController.ToDtoInjective` | Back-End-Development/UserManagementAPI/Controllers/UsersController.cs:75-83 | the response shape copies every field: two users give the same DTO exactly when they are equal |
| `UsersController.ToDtos` | Back-End-Development/UserManagementAPI/Controllers/UsersController.cs:43-51 | one DTO per user, position by position |
| `UsersController.ActiveOnly` | Back-End-Development/UserManagementAPI/Controllers/UsersController.cs:238 | the result holds exactly the active users of the input |
| `UsersController.ActiveOnlyKeepsOrder` | Back-End-Development/UserManagementAPI/Controllers/UsersController.cs:237-238 | filtering an id-ascending list keeps it id-ascending |
| `UsersController.GetUsers` | Back-End-Development/UserManagementAPI/Controllers/UsersController.cs:38-55 | 200 with one DTO per stored user, in store order, ids ascending |
| `UsersController.GetUser` | Back-End-Development/UserManagementAPI/Controllers/UsersController.cs:67-86 | 404 when no user has the id, otherwise 200 with that user's DTO |
| `UsersController.CreateUser` | Back-End-Development/UserManagementAPI/Controllers/UsersController.cs:100-138 | 400 if invalid; 409 and no change if any user holds the e-mail ignoring case; else 201 at the new id, with name and e-mail from the request, active, id and timestamps from the store; e-mail uniqueness preserved |
| `UsersController.UpdateUser` | Back-End-Development/UserManagementAPI/Controllers/UsersController.cs:155-201 | 400 if invalid; 404 if the id is absent; 409 if another user holds the e-mail; else 200 with the record read back after the update; no change on error paths; e-mail uniqueness preserved |
| `UsersController.DeleteUser` | Back-End-Development/UserManagementAPI/Controllers/UsersController.cs:213-226 | 204 exactly when the id was present, and then exactly that record is removed with the others kept in order; else 404 with no change; afterwards the id is not found |
| `UsersController.GetActiveUsers` | Back-End-Development/UserManagementAPI/Controllers/UsersController.cs:235-249 | 200 with exactly the active users, in store order, ids ascending |
| `UsersController.TestException` | Back-End-Development/UserManagementAPI/Controllers/UsersController.cs:258-263 | the action never completes with a response; it throws |
| `Authentication.Lookup` | Back-End-Development/UserManagementAPI/Middleware/AuthenticationMiddleware.cs:48-52 | None exactly when no entry has the name ignoring case; otherwise the values of such an entry |
| `Authentication.JoinNonEmpty` | Back-End-Development/UserManagementAPI/Middleware/AuthenticationMiddleware.cs:50-54 | the join is empty exactly when every value is empty |
| `Authentication.JoinNonEmptySingle` | Back-End-Development/UserManagementAPI/Middleware/AuthenticationMiddleware.cs:50-54 | when exactly one value is non-empty, the join is that value |
| `Authentication.StartsWithSegments` | Back-End-Development/UserManagementAPI/Middleware/AuthenticationMiddleware.cs:35-36 | definition of `StartsWithSegments`; stated by `Authentication.SegmentMatching` |
| `Authentication.IsExempt` | Back-End-Development/UserManagementAPI/Middleware/AuthenticationMiddleware.cs:35-36 | definition of the two exempt prefixes; stated by `Authentication.ExemptPathsPass` and `Authentication.SegmentMatching` |
| `Authentication.ReceivedToken` | Back-End-Development/UserManagementAPI/Middleware/AuthenticationMiddleware.cs:46-56 | definition of the token choice; stated by `Authentication.HeaderTakesPrecedence` and `Authentication.QueryUsedWithoutHeader` |
| `Authentication.IsNullOrEmpty` | Back-End-Development/UserManagementAPI/Middleware/AuthenticationMiddleware.cs:58 | definition of `string.IsNullOrEmpty`; stated by `Authentication.Decide` and `Authentication.MissingTokenCases` |
| `Authentication.AsString` | Back-End-Development/UserManagementAPI/Middleware/AuthenticationMiddleware.cs:50-54 | no values give null; a single value gives itself; otherwise the result is empty exactly when every value is empty |
| `Authentication.Decide` | Back-End-Development/UserManagementAPI/Middleware/AuthenticationMiddleware.cs:35-78 | exempt paths pass; a missing or empty token on another path gets the "missing" 401; every rejection carries either the "missing" or the "invalid" body |
| `Authentication.InvokeAsync` | Back-End-Development/UserManagementAPI/Middleware/AuthenticationMiddleware.cs:32-79 | on a pass the next stage runs exactly once and the response is untouched; on a rejection it sets 401, JSON and the body, and the next stage does not run |
| `Authentication.PassesExactly` | Back-End-Development/UserManagementAPI/Middleware/AuthenticationMiddleware.cs:35-78 | a request passes if and only if its path is exempt or its token is non-empty and equals the configured key |
| `Authentication.ExemptPathsPass` | Back-End-Development/UserManagementAPI/Middleware/AuthenticationMiddleware.cs:35-40 | exempt paths pass whatever the headers, query and configuration |
| `Authentication.SegmentMatching` | Back-End-Development/UserManagementAPI/Middleware/AuthenticationMiddleware.cs:35-36 | `/swagger`, `/swagger/...` and `/SWAGGER/...` are exempt; `/swaggerx`, `/healthz` and `/api/users` are not |
| `Authentication.HeaderTakesPrecedence` | Back-End-Development/UserManagementAPI/Middleware/AuthenticationMiddleware.cs:48-51 | with the header present the token is the header's, whatever the query holds |
| `Authentication.QueryUsedWithoutHeader` | Back-End-Development/UserManagementAPI/Middleware/AuthenticationMiddleware.cs:52-56 | without the header the token is the query parameter's, or null |
| `Authentication.EmptyHeaderDoesNotFallBack` | Back-End-Development/UserManagementAPI/Middleware/AuthenticationMiddleware.cs:48-65 | a present but empty header yields the "missing" 401 whatever the query holds |
| `Authentication.WrongKeyRejected` | Back-End-Development/UserManagementAPI/Middleware/AuthenticationMiddleware.cs:68-75 | a non-empty token different from the configured key yields the "invalid" 401 |
| `Authentication.NoConfiguredKeyRejectsAll` | Back-End-Development/UserManagementAPI/Middleware/AuthenticationMiddleware.cs:43 | with no key configured every non-exempt request is rejected |
| `Authentication.MissingTokenCases` | Back-End-Development/UserManagementAPI/Middleware/AuthenticationMiddleware.cs:48-65 | no header and no query entry, a header entry without values, or an empty query parameter without a header each yield the "missing" 401 |
| `Authentication.EmptyHeaderValuesSkipped` | Back-End-Development/UserManagementAPI/Middleware/AuthenticationMiddleware.cs:48-75 | header lines "" and "k" with key "k" pass; header lines "" and "" yield the "missing" 401 |

`UsersController.ExampleSession` replays the scenario below against the seeded store
and asserts each outcome from the contracts above:
- create `dana@x.com` gives 201 at id 4;
- create `DANA@X.COM` gives 409;
- GET 4 gives 200 with the first response's record;
- DELETE 4 gives 204;
- GET 4 gives 404.

## Findings

| source | as written | input that shows it | evidently intended | confidence | as-written member | corrected member |
|---|---|---|---|---|---|---|
| Back-End-Development/UserManagementAPI/Services/UserService.cs:68 | `_nextId++` on a 32-bit `int` in unchecked arithmetic wraps from 2147483647 to -2147483648 | a counter at 2147483647 (after 2147483643 creates): that create issues 2147483647 and leaves the counter at -2147483648, so the next one issues -2147483648, and after 2^32 creates ids repeat | ids strictly increase and are never reused | low (needs over two billion creates); not executed | `UserStore.PostIncrementInt32`, `UserStore.CounterWrapBreaksAscendingIds` | `UserStore.UserService.CreateUser` (unbounded counter; new id above every issued id) |

## Left out

- UserStore.UserService.CreateUser: the counter is an unbounded integer (see Findings), so the 32-bit wrap-around of the source is not in the store itself.
- Users.EmailValid: the `[EmailAddress]` shape check belongs to the framework and its body is not part of this source; it is the parameter `emailShaped`.
- UsersController.CreateUser, UsersController.UpdateUser: `ModelState.IsValid` is the input `modelValid`. The request DTO classes and their attributes are not part of this model. The `BadRequest(ModelState)` error details are the single body `InvalidModel`.
- Body texts of 404 and 409 are the constructors `UserMissing(id)`, `EmailInUse(email)` and `EmailInUseByOther(email)`, carrying the interpolated values, not the literal message strings.
- Clock: every `DateTime.UtcNow` is a parameter. The seed data uses one reading where the source reads the clock six times.
- Object identity: `User` is a reference type in the source. Create mutates the caller's object and stores that same object; lookups return the stored object. The model works on values. The controller never mutates what it gets back, so no response differs.
- Concurrency: `async`, `Task.Delay` and the unsynchronised static list are not modelled. Every operation runs atomically, one at a time. LINQ's deferred evaluation of `OrderBy`, `Where` and `Select` is therefore not observable and not modelled.
- Text.EqualsIgnoreCase, Text.EqualsIgnoreCaseExactly: ordinal ignore-case comparison also folds non-ASCII letters (so "älice@x.com" and "ÄLICE@x.com" collide in the source); the model folds ASCII letters only, through Text.ToUpperOrdinal.
- Users.NameValid: `[StringLength]` counts UTF-16 code units; the model counts Unicode scalar values, which differ only outside the Basic Multilingual Plane.
- Authentication.Lookup: a header or query collection is a list of named entries, searched for the first name equal ignoring case. Merging repeated headers and parsing the query string are the framework's work and are not modelled.
- All logging, including the notice when the key comes from the query string.
- GlobalExceptionHandlingMiddleware and LoggingMiddleware: exception and I/O plumbing. The 500 that the outer handler produces for `TestException` is therefore not modelled.
- Program.cs wiring: the middleware order (Program.cs:54-60) is captured only by the gate's count of next-stage invocations. The controller runs only downstream of a pass.
- The other samples of the repository are not part of this model: the SQLite console program, the chat hub and chat service, the weather client, the product-list hosts and the browser scripts.
