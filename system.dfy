/** Properties of the whole request path: a service result passed through a handler,
    a token issued by one handler and presented to the gates, and the two handler
    variants compared on the same service results. */
module EndToEnd {

  import opened Common
  import opened ObjectIds
  import opened Models
  import opened Jwt
  import opened Http
  import opened TaskData
  import opened UserData
  import opened AuthMiddleware
  import opened Router
  import A = AuthgoControllers
  import G = GoMangoControllers

  // ---------------------------------------------------------------------------
  // Tokens

  /** A token issued for `u` at `issued`, presented as "Bearer <token>" at any second of
      its 24 hours, passes the authentication gate and puts the user's name and role
      into the context. */
  lemma IssuedTokenAuthenticates(u: User, secret: string, issued: int, t: int, tok: string,
                                 decode: string -> Option<Jws>, keys: Keys)
    requires IsWord(tok) && decode(tok) == Some(A.TokenForUser(u, secret, issued))
    requires issued <= t < issued + A.TokenLifetime
    ensures IdentityOf("Bearer " + tok, decode, secret, t) == Some(Identity(u.username, u.role))
    ensures AuthDecision(keys, "Bearer " + tok, decode, secret, t)
              == Next(keys["username" := CtxString(u.username)]["role" := CtxString(u.role)])
  {
    assert IsSpace(" "[0]);
    BearerAccepted([], "Bearer", " ", tok, []);
    assert [] + "Bearer" + " " + tok + [] == "Bearer " + tok;
    A.TokenValidWindow(u, issued, t);
  }

  /** The same token is refused before its issuing second, from its `exp` second on, and
      under any other secret. A bound that is 0 reads as unset and refuses nothing. */
  lemma IssuedTokenRefused(u: User, secret: string, issued: int, t: int, tok: string, other: string,
                           decode: string -> Option<Jws>, keys: Keys)
    requires IsWord(tok) && decode(tok) == Some(A.TokenForUser(u, secret, issued))
    requires || (t < issued && issued != 0)
             || (issued + A.TokenLifetime <= t && issued + A.TokenLifetime != 0)
             || other != secret
    ensures AuthDecision(keys, "Bearer " + tok, decode, other, t) == Abort(Fail(StatusUnauthorized, "Invalid token"))
  {
    assert IsSpace(" "[0]);
    BearerAccepted([], "Bearer", " ", tok, []);
    assert [] + "Bearer" + " " + tok + [] == "Bearer " + tok;
    A.TokenValidWindow(u, issued, t);
  }

  /** The first user to register is the admin: the token the registration returns
      opens every route while it is valid. */
  lemma FirstRegistrantReachesEverything(username: string, password: string, salt: nat, newId: ObjectId,
                                         sign: Jws -> Option<string>, decode: string -> Option<Jws>,
                                         secret: string, issued: int, t: int, i: int)
    requires username != "" && password != ""
    requires 0 <= i < |Routes()|
    requires var created := CreateUserStep(map[], username, password, salt, newId, None).0;
             var jws := A.TokenForUser(created.value, secret, issued);
             sign(jws).Some? && IsWord(sign(jws).value) && decode(sign(jws).value) == Some(jws)
    requires issued <= t < issued + A.TokenLifetime
    ensures var resp := A.Register(true, CreateUserStep(map[], username, password, salt, newId, None).0, sign, secret, issued);
            && resp.status == StatusCreated && resp.body.role == AdminRole
            && RunGates(Routes()[i].gates, map[], "Bearer " + resp.body.token, decode, secret, t).Next?
  {
    var created := CreateUserStep(map[], username, password, salt, newId, None).0;
    assert created.Ok? && created.value.role == AdminRole;
    var tok := sign(A.TokenForUser(created.value, secret, issued)).value;
    IssuedTokenAuthenticates(created.value, secret, issued, t, tok, decode, map[]);
    AccessPolicy(i, map[], "Bearer " + tok, decode, secret, t);
  }

  /** Signing up, then logging in with the same credentials, gives a 200 naming the same
      user and role as the sign-up's 201. */
  lemma RegisterThenLogin(users: Users, username: string, password: string, salt: nat, newId: ObjectId,
                          sign: Jws -> Option<string>, secret: string, now: int, later: int)
    requires CreateUserStep(users, username, password, salt, newId, None).0.Ok?
    requires var created := CreateUserStep(users, username, password, salt, newId, None).0.value;
             sign(A.TokenForUser(created, secret, now)).Some? && sign(A.TokenForUser(created, secret, later)).Some?
    ensures var (created, after) := CreateUserStep(users, username, password, salt, newId, None);
            var reg := A.Register(true, created, sign, secret, now);
            var login := A.Login(true, AuthenticateResult(after, username, password, None), sign, secret, later);
            && reg.status == StatusCreated && login.status == StatusOK
            && reg.body.username == login.body.username == username
            && reg.body.role == login.body.role
  {
  }

  /** A wrong password and an unknown name get the same 401. */
  lemma LoginFailuresLookAlike(users: Users, username: string, password: string,
                               sign: Jws -> Option<string>, secret: string, now: int)
    requires username !in users || !Verify(users[username].passwordHash, password)
    ensures A.Login(true, AuthenticateResult(users, username, password, None), sign, secret, now)
              == Fail(StatusUnauthorized, "invalid credentials")
  {
  }

  /** Promotion over HTTP: an existing user comes back as admin with 200; an unknown one
      is a 404, and promoting again answers the same. */
  lemma PromoteOverHttp(users: Users, username: string)
    requires RecordsWellFormed(users) && username != ""
    ensures var (r, after) := PromoteUserStep(users, username, None);
            && (username in users ==> A.Promote(username, r) == Response(StatusOK, RoleBody(username, AdminRole)))
            && (username !in users ==> A.Promote(username, r) == Fail(StatusNotFound, "user not found"))
            && A.Promote(username, PromoteUserStep(after, username, None).0) == A.Promote(username, r)
  {
  }

  // ---------------------------------------------------------------------------
  // Tasks through the two handler variants

  /** The two views of a task agree: the listing views are identical, and the hex view
      of the single-task handlers differs from them only on the zero ID. */
  lemma ViewsAgree(t: Task)
    ensures A.TaskView(t) == G.ToResponse(t)
    ensures !IsZero(t.id) ==> A.HexView(t) == G.ToResponse(t)
  {
  }

  /** A malformed identifier: `authgo` answers 500 on read and delete, and on an update
      whose body binds, because it leaves the check to the service; an update body that
      does not bind is refused first with 400 "invalid json". `go_mango` checks the
      identifier before anything else and answers 400 "invalid task ID" in every case. */
  lemma MalformedIdStatuses(store: Store, hexId: string, u: Task, fault: Option<string>)
    requires !ValidId(hexId)
    ensures A.GetTaskByID(FindTask(store, hexId, fault)) == Fail(StatusInternalServerError, "failed to fetch task")
    ensures BindsAsTask(u) ==>
              A.UpdateTask(BindsAsTask(u), UpdateTaskStep(store, hexId, u, fault).0) == Fail(StatusInternalServerError, "failed to update")
    ensures !BindsAsTask(u) ==>
              A.UpdateTask(BindsAsTask(u), UpdateTaskStep(store, hexId, u, fault).0) == Fail(StatusBadRequest, "invalid json")
    ensures A.DeleteTask(DeleteTaskStep(store, hexId, fault).0) == Fail(StatusInternalServerError, "failed to delete")
    ensures G.GetTaskByID(hexId, FindTask(store, hexId, fault)) == Fail(StatusBadRequest, "invalid task ID")
    ensures G.UpdateTask(hexId, BindsAsTask(u), UpdateTaskStep(store, hexId, u, fault).0) == Fail(StatusBadRequest, "invalid task ID")
    ensures G.DeleteTask(hexId, DeleteTaskStep(store, hexId, fault).0) == Fail(StatusBadRequest, "invalid task ID")
  {
  }

  /** A stored task read back under the hex form of its ID is a 200 in both variants,
      with the same body, whose ID reads back as the task's. */
  lemma StoredTaskServed(store: Store, t: Task)
    requires WellFormed(store) && t.id in store && store[t.id] == t
    ensures A.GetTaskByID(FindTask(store, Hex(t.id), None)) == Response(StatusOK, TaskBody(G.ToResponse(t)))
    ensures G.GetTaskByID(Hex(t.id), FindTask(store, Hex(t.id), None)) == Response(StatusOK, TaskBody(G.ToResponse(t)))
    ensures FromHex(G.ToResponse(t).id) == Some(t.id)
  {
  }

  /** A well-formed identifier that matches nothing is a 404 in both variants. */
  lemma AbsentTaskNotFound(store: Store, hexId: string)
    requires WellFormed(store) && ValidId(hexId) && FromHex(hexId).value !in store
    ensures A.GetTaskByID(FindTask(store, hexId, None)) == Fail(StatusNotFound, "task not found")
    ensures G.GetTaskByID(hexId, FindTask(store, hexId, None)) == Fail(StatusNotFound, "Task not found")
  {
  }

  /** An update body with no field set never reaches the service over HTTP: binding
      refuses its empty title, so both variants answer their "invalid json" 400 (after
      the identifier check in `go_mango`). Only when binding is taken as passed does the
      service's "no fields to update" come back, as a 400 in both variants. */
  lemma EmptyUpdateStatuses(store: Store, hexId: string, fault: Option<string>, updated: Result<Task>)
    ensures var blank := Task(Zero, "", "", "", "");
            && !BindsAsTask(blank)
            && A.UpdateTask(BindsAsTask(blank), updated) == Fail(StatusBadRequest, "invalid json")
            && (ValidId(hexId) ==> G.UpdateTask(hexId, BindsAsTask(blank), updated) == Fail(StatusBadRequest, "invalid JSON"))
    ensures var blank := Task(Zero, "", "", "", "");
            ValidId(hexId) ==>
              && A.UpdateTask(true, UpdateTaskStep(store, hexId, blank, fault).0) == Fail(StatusBadRequest, "no fields to update")
              && G.UpdateTask(hexId, true, UpdateTaskStep(store, hexId, blank, fault).0) == Fail(StatusBadRequest, "no fields to update")
  {
  }

  /** Deleting a stored task is a 200; deleting it again is a 404 in both variants. */
  lemma DeleteTwiceOverHttp(store: Store, hexId: string)
    requires ValidId(hexId) && FromHex(hexId).value in store
    ensures var (r1, after) := DeleteTaskStep(store, hexId, None);
            var r2 := DeleteTaskStep(after, hexId, None).0;
            && A.DeleteTask(r1) == Response(StatusOK, MessageBody("task deleted"))
            && A.DeleteTask(r2) == Fail(StatusNotFound, "task not found")
            && G.DeleteTask(hexId, r1) == Response(StatusOK, MessageBody("Task deleted successfully"))
            && G.DeleteTask(hexId, r2) == Fail(StatusNotFound, "Task not found")
  {
  }

  /** A created task is answered with 201 and the same body by both variants, and its ID
      in that body leads back to the stored document. */
  lemma CreatedTaskAnswered(store: Store, input: Task, newId: ObjectId)
    requires WellFormed(store) && !IsZero(newId) && newId !in store && input.title != ""
    requires IsZero(input.id)
    ensures var (r, after) := CreateTaskStep(store, input, newId, None);
            && A.CreateTask(true, r) == Response(StatusCreated, TaskBody(G.ToResponse(r.value)))
            && G.CreateTask(true, r) == A.CreateTask(true, r)
            && FindTask(after, A.CreateTask(true, r).body.task.id, None) == Ok(input.(id := newId))
  {
  }
}
