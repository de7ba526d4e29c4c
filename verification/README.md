# Todo service: in-memory state machine

A model of the request handlers of a small Express service (`src/index.ts`). The service
offers signup, login and token refresh, plus per-user CRUD over todo items. All of its
state lives in three module-level mutables:

- the `users` array, seeded with `user1` and `user2`;
- the `refreshTokens` object;
- the `todos` array.

Here that state is one immutable `State` record: `users: seq<User>`,
`refreshTokens: map<string, string>` and `todos: seq<Todo>`. Each handler is a pure
function `(State, inputs) -> Step(result, next)`. The result is a success value or one
`Failure` kind. Each kind is documented with the status code (400, 401 or 404) and the
message the route answers with.

The library calls are not implemented. They are the fields of a `Foreign` value that every
handler receives:

- `hash` and `compare` stand for bcrypt;
- `signAccess`, `signRefresh` and `verify` stand for jsonwebtoken with the key `"secret"`;
- `toNumber` stands for JavaScript's `Number(...)`, with `None` for `NaN`.

Nothing is assumed about these functions. For example, `compare(p, hash(p))` is not
assumed; the lemmas that need it take it as a hypothesis.

Modules:

- `Wrappers`: `Option` and `Result`.
- `Seqs`: `find`/`findIndex`/`some` (`FindIndex`) and `filter` (`Filter`), with order lemmas.
- `Strings`: `split` on one character and its inverse `join`.
- `Store`: the entities, `Foreign`, the failure kinds, the seed state, the account invariant.
- `Authorizer`: the bearer-token guard shared by the todo routes.
- `Accounts`: `POST /signup`, `POST /login`, `POST /refresh`.
- `Todos`: the ownership-scoped store operations and the five todo routes.
- `Server`: any sequence of requests from the seed state, and the invariants it keeps.

## Behaviour of the code worth knowing

- **Validation rejects nothing.** The express-validator chains are defined at
  src/index.ts:28-52 and attached to the routes at src/index.ts:71, 98, 118, 194 and 225. But `validationResult` is imported and never called, so no request
  is rejected by them, and the handlers take any strings. As a result, an empty title can be created, an empty refresh token reaches
  the `!refreshToken` test, and an empty title in an update is ignored by `title || ...`.
- **The refresh table binds to the access-token string** (src/index.ts:110). Refresh then looks up the account whose id equals `Number(stored)`
  (src/index.ts:127). `Accounts.LoginThenRefresh` states exactly when that succeeds.
  `Accounts.RefreshAfterLoginRefused` shows the consequence: since a signed token is not a
  numeral, a refresh token from a login is always refused.
- **Todo ids are `todos.length + 1`** (src/index.ts:208). After a delete, an id still in
  use can be issued again. `Todos.DeleteThenCreateReusesId` exhibits two todos
  of one user that both have id 2. Nothing in the model claims todo ids are unique.
- **The first word of the Authorization header is not inspected.** The token is the second segment of
  `split(" ")` (src/index.ts:149). `Basic abc` yields `abc`, and `Bearer  abc` (two spaces)
  yields the empty segment, which counts as a missing token.

## Model

| member | source | states |
|---|---|---|
| `Seqs.FindIndex` | src/index.ts:239-241 | `findIndex`/`find`: the answered index satisfies the callback and no earlier element does. `None` exactly when no element does. |
| `Seqs.Filter` | src/index.ts:158 | `filter`: every kept element satisfies the predicate, and the result is never longer than the input. |
| `Seqs.FilterCount` | src/index.ts:158 | Each value satisfying the predicate is kept as often as it occurs in the input, and no other value is kept. |
| `Seqs.FilterConcat` | src/index.ts:158 | Filtering distributes over concatenation, so kept elements stay in their original order. |
| `Seqs.FilterUpdateRejected` | src/index.ts:247-252 | Overwriting an element the predicate rejects, with a value it also rejects, leaves the filtered sequence unchanged. |
| `Seqs.FilterRemoveRejected` | src/index.ts:281 | Splicing out an element the predicate rejects leaves the filtered sequence unchanged. |
| `Strings.Split` | src/index.ts:149 | `split(" ")` yields at least one part. No part contains the separator, and joining the parts with it gives back the input. |
| `Strings.SplitJoin` | src/index.ts:149 | Splitting a join of separator-free parts recovers those parts, so `Split` is the unique such decomposition. |
| `Strings.SplitWithoutSeparator` | src/index.ts:149 | A string without the separator splits into itself alone. |
| `Store.SeedInvariant` | src/index.ts:54-67 | The seeded accounts have ids 1 and 2 at positions 0 and 1 and distinct usernames. The refresh table and the todo list start empty. |
| `Authorizer.BearerToken` | src/index.ts:149 | No header gives no token. A token is present only when the header contains a space, and the token itself contains no space. |
| `Authorizer.BearerTokenIsSecondWord` | src/index.ts:149 | For any header made of space-free words, the token is the second word, whatever the first word is. |
| `Authorizer.BearerTokenOfSchemeAndToken` | src/index.ts:149 | `scheme + " " + token` with space-free parts yields exactly `token`. |
| `Authorizer.BearerTokenNeedsSpace` | src/index.ts:149-152 | A header without a space carries no token. |
| `Authorizer.Authorize` | src/index.ts:149-156 | "Unauthorized" exactly when the token is absent or empty. "Invalid token" when verification fails. Otherwise the verified `id` claim, and success exactly when a non-empty token verifies. |
| `Authorizer.AuthorizeSchemeAndToken` | src/index.ts:149-156 | A well-formed `scheme token` header authorizes as the verified id of `token`, or fails with "Invalid token". |
| `Accounts.Signup` | src/index.ts:73-92 | A taken username gives 400 with the state unchanged. Otherwise exactly one account `{users.length + 1, username, hash(password)}` is appended. Earlier accounts, the refresh table and the todos stay untouched, and the answer is the new id and username. |
| `Accounts.SignupPreservesInvariant` | src/index.ts:76-89 | Signup keeps `users[i].id == i + 1` and pairwise distinct usernames. |
| `Accounts.Login` | src/index.ts:100-112 | 401 with no state change unless the first account with that exact username exists and the password compares equal to its hash. On success: tokens signed for that account's id, and exactly the binding `refreshToken -> token` is added. Accounts and todos never change. |
| `Accounts.Refresh` | src/index.ts:120-135 | Never changes any state. An unknown token is refused. Success happens exactly when the token is non-empty, bound to a non-empty string, and that string converts to an existing account id. The new access token is signed for that id. |
| `Accounts.SignupThenLogin` | src/index.ts:82-105 | A freshly registered account logs in with a password exactly when the comparison accepts it against the stored hash, and gets tokens for the new id. |
| `Accounts.LoginThenRefresh` | src/index.ts:107-131 | A login's refresh token is later accepted exactly when the bound access-token string is non-empty and converts to an existing account id. |
| `Accounts.RefreshAfterLoginRefused` | src/index.ts:110-131 | When the access-token string is not a numeral, refreshing with the login's refresh token is always refused. |
| `Todos.ListOwned` | src/index.ts:158 | Every listed todo belongs to the caller, and each of the caller's todos appears as often as in the store. |
| `Todos.ListOwnedConcat` | src/index.ts:158 | The caller's list keeps store order. |
| `Todos.FindOwned` | src/index.ts:176-184 | 404 exactly when no todo matches both the id and the owner. Otherwise the first such todo, which belongs to the caller and has the requested id. |
| `Todos.Create` | src/index.ts:207-214 | Appends exactly `{todos.length + 1, title, false, caller}` and answers it. Earlier todos, accounts and the refresh table stay unchanged. |
| `Todos.Merge` | src/index.ts:247-252 | Id and owner are kept. The title changes only to a supplied non-empty string, and always does when one is supplied. `completed` changes only to a supplied value, and always does when one is supplied. |
| `Todos.Update` | src/index.ts:236-254 | 404, with no state change, exactly when the caller owns no todo with that id. Otherwise only the first match is replaced by its merge with the supplied fields. |
| `Todos.Delete` | src/index.ts:271-283 | 404, with no state change, exactly when the caller owns no todo with that id. Otherwise exactly the first match is removed and answered, and the others keep their order. |
| `Todos.CreateScoped` | src/index.ts:207-214 | Creating appends the new todo to the caller's list and leaves every other user's list unchanged. |
| `Todos.UpdateScoped` | src/index.ts:239-252 | An update by one user never changes another user's list. |
| `Todos.DeleteScoped` | src/index.ts:273-281 | A delete by one user never changes another user's list. |
| `Todos.DeleteThenCreateReusesId` | src/index.ts:207-281 | Create, create, delete id 1, create leaves two todos of one user that both have id 2. |
| `Todos.GetTodos` | src/index.ts:148-164 | Authorization failures are answered as such. An authorized request always succeeds with `ListOwned` of the store: the caller's todos in store order, each with its store multiplicity. The state never changes. |
| `Todos.GetTodo` | src/index.ts:166-190 | Authorization failures are answered as such. A todo is answered only if it is in the store, owned by the caller and has id `Number(param)`. The state never changes. |
| `Todos.PostTodo` | src/index.ts:192-221 | An authorization failure leaves the state unchanged. Otherwise the todo is created for the verified id. Accounts and the refresh table never change. |
| `Todos.PutTodo` | src/index.ts:223-259 | An authorization failure or a 404 leaves the state unchanged. Otherwise the update runs for the verified id and `Number(param)`. |
| `Todos.DeleteTodo` | src/index.ts:261-287 | An authorization failure or a 404 leaves the state unchanged. Otherwise the delete runs for the verified id and `Number(param)`. |
| `Todos.OwnershipIsolation` | src/index.ts:172-286 | A caller never gets back another user's todo, and never changes or removes one, even when the ids coincide. |
| `Todos.PartialUpdate` | src/index.ts:249-251 | A title-only update keeps `completed`. A `completed`-only update keeps the title. An empty title is ignored. |
| `Server.HandlePreserves` | src/index.ts:54-287 | Every request only appends accounts, keeps the account invariant, and never unbinds a refresh token. |
| `Server.RunPreserves` | src/index.ts:54-287 | The same holds across any sequence of requests. |
| `Server.ReachableInvariant` | src/index.ts:54-89 | In every reachable state, `users[i].id == i + 1`, usernames are distinct, and the seeded accounts come first. |
| `Server.AliceScenario` | src/index.ts:54-190 | From start-up, `alice` signs up as account 3, because two accounts are seeded. Assuming the password compares equal to its hash and the access token verifies to 3, her login answers the tokens signed for 3, and with that access token "buy milk" becomes todo 1 owned by 3. A caller whose token verifies to another id gets 404 for todo 1, and alice gets the todo back. |

## Left out

- Express wiring, morgan logging, the JSON body parser and `app.listen` (src/index.ts:5-22, 289-291): framework plumbing. The catch-all 404 and the three-argument "error handler" are registered before the routes. The handlers are modelled as if reachable, and route dispatch is not modelled.
- The middleware at src/index.ts:14-17 takes three parameters, so Express calls it as an ordinary `(req, res, next)` middleware, not as an error handler. Its `res.status(500)` then runs on `next`, which has no `status`, so the call throws and Express answers its default 500. Every request whose body parses ends there. A request whose JSON body the parser at src/index.ts:11 rejects is answered 4xx by the parser, which skips the three-parameter function because an error is pending. Either way, as written, no request reaches a route. The model describes the route handlers as if they were reachable.
- The express-validator rules (src/index.ts:28-52): their results are never consulted, so they have no effect on any handler.
- bcrypt: `hash` is a deterministic function parameter. The random salt is not modelled, and no relation between `compare` and `hash` is assumed.
- jsonwebtoken: signing and verification are function parameters. There is no clock, so the 1-hour expiry is not modelled. `signAccess` and `signRefresh` take only the id, so the `iat` timestamp `jwt.sign` embeds (src/index.ts:107-108, 133) is dropped: in the model every login of one account answers the same token pair and re-binds the same key, whereas logins in different seconds add distinct keys to `refreshTokens`. `verify` answers the `id` claim directly, so a payload without a numeric `id` is not modelled.
- `Number(...)`: a function parameter answering an integer or `None`. Non-integer numbers are folded into `None`, since they can never equal an id.
- Request bodies are modelled as strings, with `title`/`completed` optional for updates. Missing fields in the other routes and non-string or non-boolean JSON values are not modelled.
- The refresh table is a plain map. Keys inherited from `Object.prototype`, such as `toString`, are treated as absent. In the source such a key would convert to `NaN` and also be refused with 401.
- Concurrency: each request is handled to completion before the next starts.
