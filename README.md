# goauth: a verified model of the task and user service

goauth is a small HTTP service written in Go. It offers:

- sign-up and login, where the first account created becomes the admin;
- JSON Web Tokens that carry a user's name and role;
- two access gates in front of a task list, one asking for a valid token and one for the admin role.

This project models the parts of goauth that make decisions, and proves properties of that model:

- **Task collection** (`TaskData`, task_service.dfy). A map from ObjectID to task.
  - `TaskService` is a class whose methods change the map step by step.
  - The pure step functions beside the class say what each call returns and what the map becomes.
  - The lemmas are stated about those functions.
- **User directory** (`UserData`, user_service.dfy). A map from username to user, with a `UserService` class built the same way.
  - bcrypt is symbolic: `Hash` and `Verify`, with a salt as a parameter.
  - The ObjectID the driver would generate is a parameter too.
- **Access gates** (`AuthMiddleware`, auth_middleware.dfy).
  - `strings.Fields` with Go's `unicode.IsSpace`.
  - The Authorization-header check and the token check. The check needs an HMAC algorithm and the server secret, and applies the `exp`/`nbf` rules of sections 4.1.4 and 4.1.5 of RFC 7519 with golang-jwt v5's defaults: no leeway, and a time claim that is the number 0 reads as unset.
  - Claim extraction, and the admin check.
  - The two gate handlers, written on a request `Context` class.
- **Handlers**. The two handler variants are modelled separately:
  - the `authgo` variant (`AuthgoControllers`, controller.dfy), which also builds the token's claim set;
  - the `go_mango` variant (`GoMangoControllers`, task_controller.dfy).

  Each handler is a function from the binding outcome and the service result to the HTTP response. The two `GetTasks` handlers are methods with the source's appending loop.
- **Route table** (`Router`, router.dfy). The route-to-gate table is a fixed list, and the chain of gates is run in order.
- **Whole request path** (`EndToEnd`, system.dfy):
  - a token as issued is accepted during exactly its 24 hours;
  - the first registrant reaches every route;
  - a malformed identifier gives 500 in one variant and 400 in the other;
  - the two variants agree on stored tasks.

`ObjectIds` (object_id.dfy) models the 12-byte ObjectID with its hex form. It proves the round trip through `Hex` and `ObjectIDFromHex`. `Common` holds `Option`, `Result` and the error texts. `Models` holds the records, `Jwt` the claim set and the token check, and `Http` the responses.

Named inputs stand in for what the model cannot see:

| input | stands for |
|---|---|
| `fault: Option<string>` | a driver error, with its text |
| `bindOk` | gin's JSON binding outcome |
| `newId`, `salt` | the fresh ObjectID and bcrypt's randomness |
| `decode`, `sign` | compact-token parsing and signing |
| `now` | the clock |
| `secret` | `JWT_SECRET` |

Behaviours of the code worth noting:

- The token has no `iat` claim (controllers/controller.go:32-37).
- Promoting an unknown user is not an error. It yields the zero user, and the handler answers 404 (data/user_service.go:129-130).
- Claims that are not strings are not refused. They become "" (middleware/auth_middleware.go:63-64).
- The header check accepts any case of "bearer" and any white space, not only `Bearer <token>` (middleware/auth_middleware.go:33-34).
- In `authgo` a malformed task ID is a 500, not a client error (controllers/controller.go:143-147).
- `golang-jwt` v5 reads an `exp` or `nbf` of 0 as unset, so a token issued at clock second 0 has no lower bound and is accepted at every earlier second.

## Model

| member | source | states |
|---|---|---|
| ObjectIds.Hex | controllers/task_controller.go:26-28 | the hex form has two characters per byte; that it is lower-case is `HexIsLowerCase`, that it parses back is `HexRoundTrip` |
| ObjectIds.HexIsLowerCase | controllers/task_controller.go:26-28 | every character of the hex form is a digit or a lower-case letter a to f |
| ObjectIds.DecodeHex | data/task_service.go:60-63 | a decoded string of 2n characters gives n bytes; it succeeds exactly when every character is a hex digit (`DecodeHexSucceeds`) |
| ObjectIds.ValidId | data/task_service.go:60-63 | modelled as: exactly 24 hex digits, in either case; `FromHex` accepts exactly these |
| ObjectIds.FromHex | data/task_service.go:60-63 | an identifier is accepted exactly when it is 24 hex digits, in either case |
| ObjectIds.HexRoundTrip | controllers/task_controller.go:26-28 | the hex form of any ObjectID is a valid identifier that parses back to the same ObjectID |
| ObjectIds.FromHexThenHex | data/task_service.go:60 | parsing a valid identifier and printing it again gives the identifier in lower case |
| Models.HashThenVerify | data/user_service.go:95-97 | a password verifies against its own hash, whatever the salt, and no other password does; the cleared hash verifies nothing |
| Models.BindsAsTask | models/task.go:8 | modelled as: a well-formed JSON body binds to a task exactly when its title is non-empty |
| Models.WithoutHash | data/user_service.go:78 | a user handed out has the hash cleared and ID, name and role unchanged |
| Jwt.ReadTime | middleware/auth_middleware.go:39-50 | a time claim is unset exactly when it is missing or the number 0, refused exactly when it is not a number, and otherwise is its non-zero number of seconds |
| Jwt.TimeValid | middleware/auth_middleware.go:39-50 | modelled as: a set `exp` must lie after now, a set `nbf` at or before now, and a time claim that is not a number fails; no leeway |
| Jwt.ZeroTimeIsUnset | middleware/auth_middleware.go:39-50 | a token whose `exp` is 0, and whose `nbf` is absent or 0, passes the time checks at every second |
| Jwt.IsHmac | middleware/auth_middleware.go:41 | modelled as: the key function accepts exactly the HMAC algorithms HS256, HS384 and HS512 |
| Jwt.ParseToken | middleware/auth_middleware.go:39-50 | claims come back exactly for a token that decodes, is HS256/384/512, is signed under the server secret and passes the exp/nbf checks, where an exp or nbf of 0 counts as absent |
| TaskData.FindTask | data/task_service.go:56-73 | the lookup step: identifier parsed first, then a driver error, then the stored task or the zero task; its properties are the lemmas below |
| TaskData.CreateTaskStep | data/task_service.go:76-95 | the create step: title checked first, then a driver error, then an insert under the fresh ID, refused if that ID is stored; `CreateTaskBehaviour` states its outcome |
| TaskData.UpdateDoc | data/task_service.go:107-119 | the `$set` document built from the non-empty fields; `UpdateDocFields` states its keys and values |
| TaskData.UpdateTaskStep | data/task_service.go:98-133 | the update step: identifier, then the empty `$set` check, then a driver error, then the write of the document after the update; `UpdateMerges` and the lemmas below state its outcome |
| TaskData.DeleteTaskStep | data/task_service.go:136-150 | the delete step: identifier, then a driver error, then removal reporting whether a task was removed; `DeleteReportsExistence` states its outcome |
| TaskData.MalformedIdRefused | data/task_service.go:102-105 | a malformed identifier gives "invalid id" for get, update and delete; the collection is unchanged, and the update body is not looked at |
| TaskData.FindDistinguishesAbsence | data/task_service.go:65-72 | with a valid identifier and no driver fault, the result is never an error; a non-zero ID comes back exactly when the task is stored, the zero task otherwise |
| TaskData.FindByHex | data/task_service.go:56-73 | a stored task is found under the hex form of its ID |
| TaskData.CreateTaskBehaviour | data/task_service.go:81-94 | an empty title gives "title required" and nothing is inserted; success returns the input with only the ID set to a fresh one, and the collection gains exactly that task |
| TaskData.CreateKeepsWellFormed | data/task_service.go:85-94 | with a fresh non-nil ID, every stored task still sits under its own non-nil ID and has a title |
| TaskData.UpdateDocFields | data/task_service.go:107-119 | the `$set` document holds exactly the non-empty fields among title, description, due date and status, with the request's values |
| TaskData.CollectFields | data/task_service.go:107-119 | the four conditional insertions build that `$set` document |
| TaskData.ApplySetIsMerge | data/task_service.go:124-126 | applying the `$set` document is the field-by-field merge: supplied fields overwrite, the rest and the ID stay |
| TaskData.UpdateWithoutFields | data/task_service.go:120-122 | with a valid identifier, "no fields to update" comes exactly when no field is supplied, and nothing changes |
| TaskData.UpdateMerges | data/task_service.go:124-132 | an update of a stored task writes the merge, keeps the ID and every other task, and returns the task as it is after the update |
| TaskData.UpdateNotFound | data/task_service.go:127-129 | an update of an absent task returns the zero task, no error, and changes nothing |
| TaskData.UpdateTwice | data/task_service.go:124-132 | the same update applied twice returns and leaves what one application does |
| TaskData.DeleteReportsExistence | data/task_service.go:145-149 | delete answers whether the task existed and removes only it; a second delete answers false without an error |
| TaskData.UpdateDeleteKeepWellFormed | data/task_service.go:98-150 | update and delete keep every task under its own non-nil ID with a non-empty title |
| TaskData.TaskService.GetAllTasks | data/task_service.go:31-53 | the loop returns every stored task exactly once; an empty collection gives an empty list, and a driver error gives that error |
| TaskData.TaskService.GetTaskByID | data/task_service.go:56-73 | the method's steps compute the lookup the lemmas above describe |
| TaskData.TaskService.CreateTask | data/task_service.go:76-95 | result and new collection are those of the create step, and the collection stays well-formed |
| TaskData.TaskService.UpdateTask | data/task_service.go:98-133 | result and new collection are those of the update step, and the collection stays well-formed |
| TaskData.TaskService.DeleteTask | data/task_service.go:136-150 | result and new collection are those of the delete step, and the collection stays well-formed |
| UserData.CreateUserStep | data/user_service.go:37-80 | the create step: both fields checked, then a driver error, then the role chosen from the collection's size, then the taken-name check and the insert; `CreateUserBehaviour` states its outcome |
| UserData.AuthenticateResult | data/user_service.go:83-102 | the login step: a driver error, else the stored user without the hash exactly when the name is stored and the digest verifies; `AuthenticateUniformly` states its outcome |
| UserData.FindByUsernameResult | data/user_service.go:105-118 | the lookup step by name; `LookupBehaviour` states its outcome |
| UserData.PromoteUserStep | data/user_service.go:121-136 | the promote step: role set to admin on a stored user, the zero user for an unknown name; `PromoteBehaviour` states its outcome |
| UserData.IsEmptyResult | data/user_service.go:139-148 | the emptiness step; `IsEmptyBehaviour` states its outcome |
| UserData.GetByIdResult | data/user_service.go:151-168 | the lookup step by ID: identifier parsed first, then a driver error, then a stored user with that ID or the zero user; `LookupBehaviour` states its outcome |
| UserData.CreateRequiresBothFields | data/user_service.go:41-43 | an empty username or password gives "username and password required", with no other effect |
| UserData.CreateRefusesTakenName | data/user_service.go:67-72 | a taken username gives "username already exists" and the collection is unchanged |
| UserData.CreateUserBehaviour | data/user_service.go:45-79 | a new user is admin exactly when the collection was empty, else "user"; the stored record carries a digest of the password that verifies; the returned user is the stored one, with the new ID and no hash; a failure changes nothing |
| UserData.CreateAllRoles | data/user_service.go:56-59 | in any run of sign-ups, a success creates an admin exactly when the collection started empty and no earlier sign-up succeeded |
| UserData.OnlyFirstUserIsAdmin | data/user_service.go:56-59 | from an empty collection, the first successful sign-up is the admin and every later success is a plain user |
| UserData.AuthenticateUniformly | data/user_service.go:88-101 | an unknown name and a wrong password give the same "invalid credentials"; success returns the stored user without the hash |
| UserData.CreateThenAuthenticate | data/user_service.go:83-101 | logging in right after signing up, with the same password, returns what the sign-up returned |
| UserData.PromoteBehaviour | data/user_service.go:125-135 | promotion sets the role to admin, keeps name, ID and digest, returns the user without the hash, and changes no one else; an unknown name gives the zero user with no error and no change |
| UserData.PromoteIdempotent | data/user_service.go:125-128 | promoting twice returns and leaves what promoting once does |
| UserData.LookupBehaviour | data/user_service.go:105-168 | lookup by name never errs without a driver fault; it gives the zero user exactly when the name is not stored, and otherwise the stored name, ID and role with the hash cleared; lookup by ID gives the user with that ID without the hash, or the zero user; a malformed hex ID gives "invalid id" |
| UserData.IsEmptyBehaviour | data/user_service.go:143-147 | without a driver fault IsEmpty succeeds, and answers true exactly when no username is stored |
| UserData.CreateKeepsAdmin | data/user_service.go:56-67 | a sign-up never leaves a non-empty collection without an admin: the first user is one, and an existing admin is kept |
| UserData.CreateAllKeepsAdmin | data/user_service.go:56-67 | over any run of sign-ups, from an empty collection or one with an admin, a non-empty result holds an admin |
| UserData.CreateKeepsDirectory | data/user_service.go:56-67 | creation keeps names, IDs and roles well-formed and IDs distinct, and once there is a user there is an admin |
| UserData.PromoteKeepsDirectory | data/user_service.go:125-135 | promotion keeps the directory well-formed |
| UserData.UserService.CreateUser | data/user_service.go:37-80 | result and new collection are those of the create step, and the directory stays well-formed |
| UserData.UserService.Authenticate | data/user_service.go:83-102 | the method's steps compute the uniform authentication above |
| UserData.UserService.FindByUsername | data/user_service.go:105-118 | the method's steps compute the lookup by name above |
| UserData.UserService.PromoteUser | data/user_service.go:121-136 | result and new collection are those of the promote step, and the directory stays well-formed |
| UserData.UserService.IsEmpty | data/user_service.go:139-148 | the method's steps compute the emptiness answer above |
| UserData.UserService.GetByID | data/user_service.go:151-168 | the method's steps compute the lookup by ID above; IDs being distinct makes the user found unique |
| AuthMiddleware.IsSpace | middleware/auth_middleware.go:33 | modelled as: Go's `unicode.IsSpace`, meaning tab to carriage return, space, U+0085, U+00A0 and the other Unicode White_Space characters |
| AuthMiddleware.Fields | middleware/auth_middleware.go:33 | modelled as `strings.Fields`: the maximal runs without white space, in order; `FieldsAreWords`, `FieldsSkipSpace`, `FieldsOfWord` and `FieldsOfTwo` state its properties |
| AuthMiddleware.ToLower | middleware/auth_middleware.go:34 | the lower-cased string has the input's length; only ASCII letters change (see Left out) |
| AuthMiddleware.WordLen | middleware/auth_middleware.go:33 | the first field runs up to the first white-space character or the end |
| AuthMiddleware.FieldsAreWords | middleware/auth_middleware.go:33 | every field is non-empty and contains no white space |
| AuthMiddleware.FieldsSkipSpace | middleware/auth_middleware.go:33 | leading white space does not change the fields |
| AuthMiddleware.FieldsOfWord | middleware/auth_middleware.go:33 | a word followed by white space or the end is the first field |
| AuthMiddleware.FieldsOfTwo | middleware/auth_middleware.go:33 | two words with white space between them and any white space around them are exactly two fields |
| AuthMiddleware.ParseHeader | middleware/auth_middleware.go:28-37 | an empty header is missing; a token is taken exactly when the header splits into two fields and the first lower-cases to "bearer" |
| AuthMiddleware.BearerAccepted | middleware/auth_middleware.go:33-38 | any case of "bearer", then white space, then a token, with any white space around, yields that token |
| AuthMiddleware.BearerTokenIsWord | middleware/auth_middleware.go:38 | a token taken from the header is one non-empty word |
| AuthMiddleware.ExtractIdentity | middleware/auth_middleware.go:57-64 | an identity exists exactly when both claims are present, and each value is read as a string or "" |
| AuthMiddleware.AuthDecision | middleware/auth_middleware.go:28-69 | a missing header aborts with 401; the chain goes on exactly for a well-formed header, a valid token and both claims present; every abort is a 401; on success only "username" and "role" are set, to the claims |
| AuthMiddleware.AuthRejections | middleware/auth_middleware.go:33-61 | a malformed header, a refused token and a missing claim abort with their own 401 messages, in that order |
| AuthMiddleware.OnlyHmacUnderSecretInWindow | middleware/auth_middleware.go:39-50 | a token that is not HMAC-signed, is signed under another key, or is outside its validity window aborts with 401 "Invalid token" |
| AuthMiddleware.NonStringClaimsBecomeEmpty | middleware/auth_middleware.go:63-64 | a role claim that is not a string is let through and set to "" |
| AuthMiddleware.AdminDecision | middleware/auth_middleware.go:76-85 | no role gives 403 "forbidden"; a role other than exactly "admin" gives 403 "admin access required"; otherwise the chain goes on with the context untouched |
| AuthMiddleware.Context.Set | middleware/auth_middleware.go:67-68 | `c.Set` stores one key and changes nothing else, the abort state included |
| AuthMiddleware.Context.AbortWithStatusJSON | middleware/auth_middleware.go:30 | the abort records the status and the error body and leaves the keys alone |
| AuthMiddleware.AuthMiddleware.AuthRequired | middleware/auth_middleware.go:26-71 | the handler aborts with the decision's response and leaves the keys alone, or sets the decision's keys and does not abort |
| AuthMiddleware.AuthMiddleware.RequireAdmin | middleware/auth_middleware.go:74-87 | the handler aborts with the admin decision's response or leaves the context as it was |
| AuthgoControllers.TokenClaims | controllers/controller.go:32-37 | the claim set is exactly username, role, exp = now + 24h and nbf = now, with no iat |
| AuthgoControllers.TokenForUser | controllers/controller.go:31-40 | the token is signed with HS256 under the server secret over that claim set |
| AuthgoControllers.TokenValidWindow | controllers/controller.go:35-36 | an issued token passes the time checks exactly at the seconds allowed by its bounds, where a bound that is 0 drops out; for an issue time after 0, that is exactly from its issuing second until the second before its expiry |
| AuthgoControllers.Register | controllers/controller.go:43-68 | a bind failure or a service error is a 400, the latter carrying the error text; a signing failure is 500 "failed to generate token"; 201 comes exactly with a user and a signed token, and names the user's name and role |
| AuthgoControllers.Login | controllers/controller.go:71-95 | a bind failure is 400 "username and password required"; every authentication error is 401 "invalid credentials"; a signing failure is 500 "failed to generate token"; 200 comes exactly with a user and a signed token |
| AuthgoControllers.Promote | controllers/controller.go:98-114 | an empty name is a 400, a service error a 500, the zero user a 404; otherwise 200 with name and role |
| AuthgoControllers.TaskView | controllers/controller.go:125-135 | a listed task shows "" exactly for the zero ID, otherwise hex that parses back to the ID, and copies the other four fields |
| AuthgoControllers.HexView | controllers/controller.go:152-158 | a single task shows its ID in hex, which parses back to it, and agrees with the listing view on non-zero IDs |
| AuthgoControllers.GetTasks | controllers/controller.go:117-138 | a service error is a 500; otherwise 200 with one view per task, same length and order |
| AuthgoControllers.GetTaskByID | controllers/controller.go:141-160 | every service error is a 500, the zero task a 404, otherwise 200 with the task |
| AuthgoControllers.CreateTask | controllers/controller.go:163-181 | a bind failure is a 400, a service error a 500; 201 comes exactly on success, with the created task |
| AuthgoControllers.UpdateTask | controllers/controller.go:184-211 | an error whose text is "no fields to update" is a 400 and any other error a 500; the zero task is a 404, otherwise 200 with the updated task |
| AuthgoControllers.DeleteTask | controllers/controller.go:214-226 | a service error is a 500, false a 404, and true exactly a 200 "task deleted" |
| GoMangoControllers.ToResponse | controllers/task_controller.go:24-36 | the zero ID shows as "" and only it; any other shows as hex that parses back to it; the four fields are copied |
| GoMangoControllers.ToResponseInjective | controllers/task_controller.go:24-36 | distinct tasks have distinct responses |
| GoMangoControllers.GetTasks | controllers/task_controller.go:39-50 | a service error is a 500; otherwise 200 with the responses of the tasks, same length and order |
| GoMangoControllers.GetTaskByID | controllers/task_controller.go:53-72 | a malformed ID is a 400 whatever the service says; then a service error is a 500, the zero task a 404, otherwise 200 |
| GoMangoControllers.CreateTask | controllers/task_controller.go:75-87 | a bind failure is a 400, a service error a 500; 201 comes exactly on success, with the created task's response |
| GoMangoControllers.UpdateTask | controllers/task_controller.go:90-120 | a malformed ID, then a bind failure, then "no fields to update" are 400s; any other error is a 500, the zero task a 404, otherwise 200 |
| GoMangoControllers.DeleteTask | controllers/task_controller.go:123-141 | a malformed ID is a 400, a service error a 500, false a 404; true exactly gives 200 |
| Router.Routes | router/router.go:11-40 | the eight registrations, in order; any route that runs the admin gate runs the authentication gate first |
| Router.RunGates | router/router.go:20-29 | modelled as: the gates run in order, each sees the keys the earlier ones set, and the first abort ends the chain; `AccessPolicy` states the outcome per route |
| Router.Lookup | router/router.go:15-36 | a verb and path pattern find a route exactly when one is registered for them |
| Router.RoutesDistinct | router/router.go:15-36 | no verb and pattern are registered twice, and each handler appears once |
| Router.GatePolicy | router/router.go:14-37 | register and login have no gate; the two reads need a token; create, update, delete and promote need a token and then the admin role; the token-only routes are exactly the GET routes |
| Router.AccessPolicy | router/router.go:19-37 | a handler runs exactly when its route is public, or needs a token and the header carries a valid identity, or needs admin and that identity's role is "admin" |
| Router.UserRoleReadsOnly | router/router.go:20-29 | a valid token with role "user" reaches the public and GET routes only, and every admin route answers 403 "admin access required" |
| Router.MissingHeaderIsUnauthorized | router/router.go:29 | without a header every guarded route answers 401, never 403, because authentication runs first |
| EndToEnd.IssuedTokenAuthenticates | controllers/controller.go:31-39 | an issued token sent as "Bearer <token>" during its 24 hours passes the authentication gate, and the context gets the user's name and role |
| EndToEnd.IssuedTokenRefused | controllers/controller.go:35-36 | the same token is refused with 401 before issue, from its expiry on, and under any other secret, for bounds that are not 0 (a bound of 0 is covered by `TokenValidWindow`) |
| EndToEnd.FirstRegistrantReachesEverything | controllers/controller.go:52-67 | the first registrant is answered 201 as admin, and the returned token opens every route while valid |
| EndToEnd.RegisterThenLogin | controllers/controller.go:43-95 | signing up and then logging in gives 201 and then 200, naming the same user and role |
| EndToEnd.LoginFailuresLookAlike | controllers/controller.go:80-84 | an unknown name and a wrong password get the identical 401 |
| EndToEnd.PromoteOverHttp | controllers/controller.go:104-113 | promoting an existing user is a 200 naming role admin, an unknown one a 404, and repeating it answers the same |
| EndToEnd.ViewsAgree | controllers/controller.go:125-135 | the `authgo` listing view equals `toResponse`, and the hex view agrees with it on non-zero IDs |
| EndToEnd.MalformedIdStatuses | controllers/controller.go:141-226 | a malformed ID is a 500 in `authgo` for read, delete, and an update whose body binds; an update body that does not bind is the 400 "invalid json" first; `go_mango` answers 400 "invalid task ID" for read, update and delete, whatever the body |
| EndToEnd.StoredTaskServed | controllers/controller.go:141-160 | a stored task read under its hex ID is the same 200 in both variants, and its ID reads back |
| EndToEnd.AbsentTaskNotFound | controllers/controller.go:148-151 | a valid ID that matches nothing is a 404 in both variants |
| EndToEnd.EmptyUpdateStatuses | controllers/controller.go:184-196 | over HTTP a body with no field set fails binding on its empty title and is the 400 "invalid json" (`go_mango`: "invalid JSON", after the ID check); when binding is taken as passed, it is the 400 "no fields to update" in both variants |
| EndToEnd.DeleteTwiceOverHttp | controllers/controller.go:216-225 | deleting a stored task is a 200, and deleting it again a 404, in both variants |
| EndToEnd.CreatedTaskAnswered | controllers/controller.go:169-180 | a created task is the same 201 in both variants, and the ID shown finds the stored task |

## Left out

- main.go and data/mongo.go: reading the environment, connecting to MongoDB and starting the server are configuration and I/O. The secret is a parameter.
- The MongoDB driver is abstracted away:
  - per-call deadlines and contexts;
  - cursor decoding and result order (`GetAllTasks` is proved to list every task once, in some order);
  - creating the unique username index, which is assumed to exist.
- Driver errors: every driver failure, a `Decode` failure included, is one `fault` input. A faulted write is modelled as having no effect.
- The count-then-insert race in `CreateUser` (data/user_service.go:45-67): with two concurrent first sign-ups, both could become admin. The model is sequential.
- bcrypt's internals are left out, including the 72-byte password limit. A failing `GenerateFromPassword` is covered only as a driver-style fault.
- JWT internals: the compact serialization and HMAC-SHA256 are left out. Parsing and signing are the `decode` and `sign` oracles. A signature is modelled as verifying exactly when it was made under the same key. Real HMAC pads short keys and hashes long ones, so two distinct keys can give the same signature; `EndToEnd.IssuedTokenRefused` relies on this modelling rule for its other-secret case.
- Jwt.TimeValid: token times are whole seconds. JSON numbers are not modelled as floating point, so fractional seconds and the precision of large float64 values are not modelled.
- The two `time.Now()` readings in `tokenForUser` are one clock reading.
- The "Invalid token claims" branch (middleware/auth_middleware.go:51-55) is not modelled. `jwt.Parse` always yields map claims, so that branch cannot be reached.
- The "failed to convert inserted id" branch (data/task_service.go:89-92) and the failed ID conversion in `CreateUser` (data/user_service.go:75-77) are not modelled, because the driver always returns an ObjectID.
- The `userService` field of the middleware (middleware/auth_middleware.go:17) is never used, so it is not modelled.
- gin itself:
  - JSON binding is the `bindOk` input;
  - response encoding is the `Response` datatype;
  - path matching and parameter extraction are left out (`Router.Lookup` looks up patterns);
  - the Logger and Recovery middleware that `gin.Default` installs are left out.
- `binding:"required"` on the task title (models/task.go:8) also applies to PUT bodies. So over HTTP an update always carries a title, and "no fields to update" is reachable only at the service level. `Models.BindsAsTask` states that rule for a well-formed JSON body; the handlers still take `bindOk` as a free input, because malformed JSON is not modelled.
- The package `authgo/data`, which controllers/controller.go:8 and middleware/auth_middleware.go:8 import, is not part of this model. data/task_service.go imports `go_mango/models`, so it is the `go_mango` data package. data/user_service.go imports `task_manager/models`. The handlers take service results as inputs. The lemmas in `EndToEnd` feed the `authgo` handlers the results of `TaskData` and `UserData`, so they assume that `authgo/data` behaves as these two files do.
- AuthMiddleware.ToLower: only ASCII letters are lower-cased. For the comparison with "bearer" this is exact, because no other character lower-cases to one of its letters.
- AuthMiddleware.Fields: strings are sequences of characters, so Go's handling of invalid UTF-8 bytes is not modelled.
