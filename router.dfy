/** The route table of router/router.go: which gates guard which handler. The chain of
    gates runs in order and stops at the first abort; the handler runs only when every
    gate lets the request through. */
module Router {

  import opened Common
  import opened Jwt
  import opened Http
  import opened AuthMiddleware

  datatype Verb = GET | POST | PUT | DELETE

  datatype Gate = AuthGate | AdminGate

  datatype Handler = Register | Login | GetTasks | GetTaskByID | CreateTask | UpdateTask | DeleteTask | Promote

  datatype Route = Route(verb: Verb, path: string, gates: seq<Gate>, handler: Handler)

  const Public: seq<Gate> := []
  const Authenticated: seq<Gate> := [AuthGate]
  const AdminOnly: seq<Gate> := [AuthGate, AdminGate]

  /** `SetupRouter`'s registrations, in order. The two groups are both made from the
      engine, so the admin group runs `AuthRequired` once, then `RequireAdmin`. */
  function Routes(): (r: seq<Route>)
    ensures |r| == 8
    ensures forall i :: 0 <= i < |r| && AdminGate in r[i].gates ==> r[i].gates[0] == AuthGate
  {
    [
      Route(POST, "/register", Public, Register),
      Route(POST, "/login", Public, Login),
      Route(GET, "/tasks", Authenticated, GetTasks),
      Route(GET, "/tasks/:id", Authenticated, GetTaskByID),
      Route(POST, "/tasks", AdminOnly, CreateTask),
      Route(PUT, "/tasks/:id", AdminOnly, UpdateTask),
      Route(DELETE, "/tasks/:id", AdminOnly, DeleteTask),
      Route(POST, "/promote/:username", AdminOnly, Promote)
    ]
  }

  /** The route registered for a verb and a path pattern. */
  function Lookup(verb: Verb, path: string): (r: Option<Route>)
    ensures r.Some? <==> exists i :: 0 <= i < |Routes()| && Routes()[i].verb == verb && Routes()[i].path == path
    ensures r.Some? ==> r.value in Routes() && r.value.verb == verb && r.value.path == path
  {
    LookupIn(Routes(), verb, path)
  }

  function LookupIn(routes: seq<Route>, verb: Verb, path: string): (r: Option<Route>)
    ensures r.Some? <==> exists i :: 0 <= i < |routes| && routes[i].verb == verb && routes[i].path == path
    ensures r.Some? ==> r.value in routes && r.value.verb == verb && r.value.path == path
  {
    if routes == [] then None
    else if routes[0].verb == verb && routes[0].path == path then Some(routes[0])
    else
      var r := LookupIn(routes[1..], verb, path);
      assert r.Some? ==> r.value in routes;
      assert forall i :: 1 <= i < |routes| ==> routes[i] == routes[1..][i - 1];
      r
  }

  /** No verb and pattern is registered twice, so gin accepts the table. */
  lemma RoutesDistinct()
    ensures forall i, j :: 0 <= i < j < |Routes()| ==>
              Routes()[i].verb != Routes()[j].verb || Routes()[i].path != Routes()[j].path
    ensures forall i, j :: 0 <= i < j < |Routes()| ==> Routes()[i].handler != Routes()[j].handler
  {
  }

  /** The policy: the sign-up and login routes are public; the two reads need a valid
      token; every write and the promotion need a valid token and then the admin role. */
  lemma GatePolicy()
    ensures forall r :: r in Routes() ==> (r.gates == Public <==> r.handler in {Register, Login})
    ensures forall r :: r in Routes() ==> (r.gates == Authenticated <==> r.handler in {GetTasks, GetTaskByID})
    ensures forall r :: r in Routes() ==>
              (r.gates == AdminOnly <==> r.handler in {CreateTask, UpdateTask, DeleteTask, Promote})
    ensures forall r :: r in Routes() ==> (r.gates == Authenticated <==> r.verb == GET)
  {
  }

  // ---------------------------------------------------------------------------
  // Running a chain of gates

  function RunGate(g: Gate, keys: Keys, header: string, decode: string -> Option<Jws>, secret: string, now: int)
    : GateOutcome
  {
    match g
    case AuthGate => AuthDecision(keys, header, decode, secret, now)
    case AdminGate => AdminDecision(keys)
  }

  function RunGates(gates: seq<Gate>, keys: Keys, header: string, decode: string -> Option<Jws>,
                    secret: string, now: int): GateOutcome
    decreases |gates|
  {
    if gates == [] then Next(keys)
    else
      match RunGate(gates[0], keys, header, decode, secret, now)
      case Abort(resp) => Abort(resp)
      case Next(keys') => RunGates(gates[1..], keys', header, decode, secret, now)
  }

  /** The identity a request's header carries, when the authentication gate accepts it. */
  function IdentityOf(header: string, decode: string -> Option<Jws>, secret: string, now: int): Option<Identity>
  {
    match ParseHeader(header)
    case Bearer(token) =>
      (match ParseToken(token, decode, secret, now)
       case Some(claims) => ExtractIdentity(claims)
       case None => None)
    case _ => None
  }

  /** Whether a request reaches a route's handler, in terms of its identity alone: a
      public route always, an authenticated one with any identity, an admin one with
      an identity whose role is exactly "admin". */
  lemma {:induction false} AccessPolicy(i: int, keys: Keys, header: string, decode: string -> Option<Jws>,
                                        secret: string, now: int)
    requires 0 <= i < |Routes()|
    ensures var r := Routes()[i];
            var id := IdentityOf(header, decode, secret, now);
            RunGates(r.gates, keys, header, decode, secret, now).Next? <==>
              || r.gates == Public
              || (r.gates == Authenticated && id.Some?)
              || (r.gates == AdminOnly && id.Some? && id.value.role == "admin")
  {
  }

  /** A token whose role is "user" reaches the two reads and the public routes, and is
      turned away from every other route with 403 "admin access required". */
  lemma UserRoleReadsOnly(i: int, keys: Keys, header: string, decode: string -> Option<Jws>,
                          secret: string, now: int)
    requires 0 <= i < |Routes()|
    requires IdentityOf(header, decode, secret, now).Some?
    requires IdentityOf(header, decode, secret, now).value.role == "user"
    ensures RunGates(Routes()[i].gates, keys, header, decode, secret, now).Next? <==>
              Routes()[i].verb == GET || Routes()[i].gates == Public
    ensures Routes()[i].gates == AdminOnly ==>
              RunGates(Routes()[i].gates, keys, header, decode, secret, now)
                == Abort(Fail(StatusForbidden, "admin access required"))
  {
  }

  /** Without an Authorization header every guarded route answers 401, never 403: the
      authentication gate runs first. */
  lemma MissingHeaderIsUnauthorized(i: int, keys: Keys, decode: string -> Option<Jws>, secret: string, now: int)
    requires 0 <= i < |Routes()| && Routes()[i].gates != Public
    ensures RunGates(Routes()[i].gates, keys, "", decode, secret, now)
              == Abort(Fail(StatusUnauthorized, "Missing Authorization header"))
  {
  }
}
