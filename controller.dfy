/** The handlers of the `authgo` module (controllers/controller.go): how each service
    result becomes an HTTP response, and the claim set of the tokens it issues. A
    handler's inputs are the outcome of JSON binding (`bindOk`), the result of the
    service call it makes and, for the token-issuing ones, the signer and the clock. */
module AuthgoControllers {

  import opened Common
  import opened ObjectIds
  import opened Models
  import opened Jwt
  import opened Http

  /** `24 * time.Hour`, in seconds. */
  const TokenLifetime: int := 86400

  /** `tokenForUser`'s claim set, with the two clock readings taken as one (`now`). */
  function TokenClaims(u: User, now: int): (c: Claims)
    ensures c.Keys == {"username", "role", "exp", "nbf"}
    ensures "iat" !in c
    ensures c["username"] == JString(u.username) && c["role"] == JString(u.role)
    ensures c["exp"] == JNumber(now + TokenLifetime) && c["nbf"] == JNumber(now)
  {
    map["username" := JString(u.username), "role" := JString(u.role),
        "exp" := JNumber(now + TokenLifetime), "nbf" := JNumber(now)]
  }

  /** The token `tokenForUser` signs: HS256 under the server secret. */
  function TokenForUser(u: User, secret: string, now: int): (jws: Jws)
    ensures jws.alg == "HS256" && jws.signingKey == secret
    ensures IsHmac(jws.alg)
    ensures jws.claims == TokenClaims(u, now)
  {
    Jws("HS256", TokenClaims(u, now), secret)
  }

  /** A token issued at `now` passes the time checks from the issuing second on, and
      until one second before `exp`; a bound that is 0 reads as unset and drops out. */
  lemma TokenValidWindow(u: User, now: int, t: int)
    ensures TimeValid(TokenClaims(u, now), t) <==>
              (now == 0 || now <= t) && (now + TokenLifetime == 0 || t < now + TokenLifetime)
    ensures now > 0 ==> (TimeValid(TokenClaims(u, now), t) <==> now <= t < now + TokenLifetime)
  {
    var c := TokenClaims(u, now);
    assert ReadTime(c, "exp") == (if now + TokenLifetime == 0 then Unset else At(now + TokenLifetime));
    assert ReadTime(c, "nbf") == (if now == 0 then Unset else At(now));
  }

  /** `Register`. `sign` is `SignedString`: the compact token, or None when signing fails. */
  function Register(bindOk: bool, created: Result<User>, sign: Jws -> Option<string>, secret: string, now: int)
    : (r: Response)
    ensures !bindOk ==> r == Fail(StatusBadRequest, "username and password required")
    ensures bindOk && created.Err? ==> r == Fail(StatusBadRequest, created.error.Message())
    ensures bindOk && created.Ok? && sign(TokenForUser(created.value, secret, now)).None? ==>
              r == Fail(StatusInternalServerError, "failed to generate token")
    ensures r.status == StatusCreated <==>
              bindOk && created.Ok? && sign(TokenForUser(created.value, secret, now)).Some?
    ensures r.status == StatusCreated ==>
              r.body == AuthBody(created.value.username, created.value.role,
                                 sign(TokenForUser(created.value, secret, now)).value)
    ensures r.status in {StatusCreated, StatusBadRequest, StatusInternalServerError}
  {
    if !bindOk then Fail(StatusBadRequest, "username and password required")
    else if created.Err? then Fail(StatusBadRequest, created.error.Message())
    else
      var u := created.value;
      match sign(TokenForUser(u, secret, now))
      case None => Fail(StatusInternalServerError, "failed to generate token")
      case Some(tok) => Response(StatusCreated, AuthBody(u.username, u.role, tok))
  }

  /** `Login`: every authentication failure is the same 401. */
  function Login(bindOk: bool, authenticated: Result<User>, sign: Jws -> Option<string>, secret: string, now: int)
    : (r: Response)
    ensures !bindOk ==> r == Fail(StatusBadRequest, "username and password required")
    ensures bindOk && authenticated.Err? ==> r == Fail(StatusUnauthorized, "invalid credentials")
    ensures bindOk && authenticated.Ok? && sign(TokenForUser(authenticated.value, secret, now)).None? ==>
              r == Fail(StatusInternalServerError, "failed to generate token")
    ensures r.status == StatusOK <==>
              bindOk && authenticated.Ok? && sign(TokenForUser(authenticated.value, secret, now)).Some?
    ensures r.status == StatusOK ==>
              r.body == AuthBody(authenticated.value.username, authenticated.value.role,
                                 sign(TokenForUser(authenticated.value, secret, now)).value)
  {
    if !bindOk then Fail(StatusBadRequest, "username and password required")
    else if authenticated.Err? then Fail(StatusUnauthorized, "invalid credentials")
    else
      var u := authenticated.value;
      match sign(TokenForUser(u, secret, now))
      case None => Fail(StatusInternalServerError, "failed to generate token")
      case Some(tok) => Response(StatusOK, AuthBody(u.username, u.role, tok))
  }

  /** `Promote`: the path parameter, then the service error, then the zero user. */
  function Promote(username: string, promoted: Result<User>): (r: Response)
    ensures username == "" ==> r == Fail(StatusBadRequest, "username required")
    ensures username != "" && promoted.Err? ==> r == Fail(StatusInternalServerError, "failed to promote user")
    ensures username != "" && promoted.Ok? && promoted.value.username == "" ==>
              r == Fail(StatusNotFound, "user not found")
    ensures r.status == StatusOK <==> username != "" && promoted.Ok? && promoted.value.username != ""
    ensures r.status == StatusOK ==> r.body == RoleBody(promoted.value.username, promoted.value.role)
  {
    if username == "" then Fail(StatusBadRequest, "username required")
    else if promoted.Err? then Fail(StatusInternalServerError, "failed to promote user")
    else if promoted.value.username == "" then Fail(StatusNotFound, "user not found")
    else Response(StatusOK, RoleBody(promoted.value.username, promoted.value.role))
  }

  /** A task in a listing: the zero ID shown as "", any other as its hex form. */
  function TaskView(t: Task): (v: TaskResponse)
    ensures v.id == "" <==> IsZero(t.id)
    ensures !IsZero(t.id) ==> ValidId(v.id) && FromHex(v.id) == Some(t.id)
    ensures v.title == t.title && v.description == t.description
    ensures v.dueDate == t.dueDate && v.status == t.status
  {
    HexRoundTrip(t.id);
    TaskResponse(if IsZero(t.id) then "" else Hex(t.id), t.title, t.description, t.dueDate, t.status)
  }

  /** A single task: its ID always in hex form, zero or not. */
  function HexView(t: Task): (v: TaskResponse)
    ensures ValidId(v.id) && FromHex(v.id) == Some(t.id)
    ensures !IsZero(t.id) ==> v == TaskView(t)
    ensures v.title == t.title && v.description == t.description
    ensures v.dueDate == t.dueDate && v.status == t.status
  {
    HexRoundTrip(t.id);
    TaskResponse(Hex(t.id), t.title, t.description, t.dueDate, t.status)
  }

  /** `GetTasks`: one entry per task, in the order the service returned them. */
  method GetTasks(fetched: Result<seq<Task>>) returns (r: Response)
    ensures fetched.Err? ==> r == Fail(StatusInternalServerError, "failed to fetch tasks")
    ensures fetched.Ok? ==>
              && r.status == StatusOK && r.body.TaskListBody?
              && |r.body.tasks| == |fetched.value|
              && forall i :: 0 <= i < |fetched.value| ==> r.body.tasks[i] == TaskView(fetched.value[i])
  {
    if fetched.Err? {
      return Fail(StatusInternalServerError, "failed to fetch tasks");
    }
    var tasks := fetched.value;
    var resp: seq<TaskResponse> := [];
    for n := 0 to |tasks|
      invariant |resp| == n
      invariant forall i :: 0 <= i < n ==> resp[i] == TaskView(tasks[i])
    {
      var t := tasks[n];
      var id := "";
      if !IsZero(t.id) {
        id := Hex(t.id);
      }
      resp := resp + [TaskResponse(id, t.title, t.description, t.dueDate, t.status)];
    }
    return Response(StatusOK, TaskListBody(resp));
  }

  /** `GetTaskByID`: every service error, a malformed identifier included, is a 500. */
  function GetTaskByID(fetched: Result<Task>): (r: Response)
    ensures fetched.Err? ==> r == Fail(StatusInternalServerError, "failed to fetch task")
    ensures fetched.Ok? && IsZero(fetched.value.id) ==> r == Fail(StatusNotFound, "task not found")
    ensures r.status == StatusOK <==> fetched.Ok? && !IsZero(fetched.value.id)
    ensures r.status == StatusOK ==> r.body == TaskBody(HexView(fetched.value))
  {
    if fetched.Err? then Fail(StatusInternalServerError, "failed to fetch task")
    else if IsZero(fetched.value.id) then Fail(StatusNotFound, "task not found")
    else Response(StatusOK, TaskBody(HexView(fetched.value)))
  }

  function CreateTask(bindOk: bool, created: Result<Task>): (r: Response)
    ensures !bindOk ==> r == Fail(StatusBadRequest, "invalid json (title required)")
    ensures bindOk && created.Err? ==> r == Fail(StatusInternalServerError, "failed to create task")
    ensures r.status == StatusCreated <==> bindOk && created.Ok?
    ensures r.status == StatusCreated ==> r.body == TaskBody(HexView(created.value))
  {
    if !bindOk then Fail(StatusBadRequest, "invalid json (title required)")
    else if created.Err? then Fail(StatusInternalServerError, "failed to create task")
    else Response(StatusCreated, TaskBody(HexView(created.value)))
  }

  /** `UpdateTask`: only an error whose text is "no fields to update" is the client's
      fault; every other error, "invalid id" included, is a 500. */
  function UpdateTask(bindOk: bool, updated: Result<Task>): (r: Response)
    ensures !bindOk ==> r == Fail(StatusBadRequest, "invalid json")
    ensures bindOk && updated.Err? ==>
              r == if updated.error.Message() == "no fields to update"
                   then Fail(StatusBadRequest, "no fields to update")
                   else Fail(StatusInternalServerError, "failed to update")
    ensures bindOk && updated.Ok? && IsZero(updated.value.id) ==> r == Fail(StatusNotFound, "task not found")
    ensures r.status == StatusOK <==> bindOk && updated.Ok? && !IsZero(updated.value.id)
    ensures r.status == StatusOK ==> r.body == TaskBody(HexView(updated.value))
  {
    if !bindOk then Fail(StatusBadRequest, "invalid json")
    else if updated.Err? then
      if updated.error.Message() == "no fields to update" then Fail(StatusBadRequest, "no fields to update")
      else Fail(StatusInternalServerError, "failed to update")
    else if IsZero(updated.value.id) then Fail(StatusNotFound, "task not found")
    else Response(StatusOK, TaskBody(HexView(updated.value)))
  }

  function DeleteTask(deleted: Result<bool>): (r: Response)
    ensures deleted.Err? ==> r == Fail(StatusInternalServerError, "failed to delete")
    ensures deleted == Ok(false) ==> r == Fail(StatusNotFound, "task not found")
    ensures r.status == StatusOK <==> deleted == Ok(true)
    ensures r.status == StatusOK ==> r.body == MessageBody("task deleted")
  {
    if deleted.Err? then Fail(StatusInternalServerError, "failed to delete")
    else if !deleted.value then Fail(StatusNotFound, "task not found")
    else Response(StatusOK, MessageBody("task deleted"))
  }
}
