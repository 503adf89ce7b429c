/** The user collection (data/user_service.go): a map from username to user, the
    username being unique by the collection's index. As for tasks, each operation is a
    function from the old collection, about which the lemmas speak, and a method of the
    `UserService` class that performs it on its collection field. */
module UserData {

  import opened Common
  import opened ObjectIds
  import opened Models

  type Users = map<string, User>

  /** What the collection satisfies: each user sits under its own non-empty username,
      has a non-nil ID no other user has, a stored digest and one of the two roles; and
      once there is a user, there is an admin. */
  ghost predicate Directory(users: Users)
  {
    RecordsWellFormed(users) && IdsDistinct(users) && HasAdmin(users)
  }

  ghost predicate RecordsWellFormed(users: Users)
  {
    forall n :: n in users ==>
      && users[n].username == n && n != ""
      && !IsZero(users[n].id)
      && users[n].passwordHash.Digest?
      && (users[n].role == AdminRole || users[n].role == UserRole)
  }

  ghost predicate IdsDistinct(users: Users)
  {
    forall a, b :: a in users && b in users && a != b ==> users[a].id != users[b].id
  }

  ghost predicate HasAdmin(users: Users)
  {
    users != map[] ==> exists n :: n in users && users[n].role == AdminRole
  }

  /** No user has this ID. */
  ghost predicate IdUnused(users: Users, id: ObjectId)
  {
    forall n :: n in users ==> users[n].id != id
  }

  // ---------------------------------------------------------------------------
  // The operations as functions of the collection

  /** `CreateUser`: both fields required; the role is "admin" when the collection was
      empty before the insert, "user" otherwise; the unique index refuses a taken name. */
  function CreateUserStep(users: Users, username: string, password: string, salt: nat, newId: ObjectId,
                          fault: Option<string>): (Result<User>, Users)
  {
    if username == "" || password == "" then (Err(CredentialsRequired), users)
    else if fault.Some? then (Err(Driver(fault.value)), users)
    else
      var role := if |users| == 0 then AdminRole else UserRole;
      var u := User(newId, username, Hash(password, salt), role);
      if username in users then (Err(UsernameTaken), users)
      else (Ok(WithoutHash(u)), users[username := u])
  }

  /** `Authenticate`: the same error for an unknown name and for a wrong password. */
  function AuthenticateResult(users: Users, username: string, password: string, fault: Option<string>): Result<User>
  {
    if fault.Some? then Err(Driver(fault.value))
    else if username !in users then Err(InvalidCredentials)
    else if !Verify(users[username].passwordHash, password) then Err(InvalidCredentials)
    else Ok(WithoutHash(users[username]))
  }

  /** `FindByUsername`: absence is the zero user, not an error. */
  function FindByUsernameResult(users: Users, username: string, fault: Option<string>): Result<User>
  {
    if fault.Some? then Err(Driver(fault.value))
    else if username in users then Ok(WithoutHash(users[username]))
    else Ok(ZeroUser)
  }

  /** `PromoteUser`: `$set` the role to "admin" and return the user after the update. */
  function PromoteUserStep(users: Users, username: string, fault: Option<string>): (Result<User>, Users)
  {
    if fault.Some? then (Err(Driver(fault.value)), users)
    else if username !in users then (Ok(ZeroUser), users)
    else
      var promoted := users[username].(role := AdminRole);
      (Ok(WithoutHash(promoted)), users[username := promoted])
  }

  function IsEmptyResult(users: Users, fault: Option<string>): Result<bool>
  {
    if fault.Some? then Err(Driver(fault.value)) else Ok(|users| == 0)
  }

  /** `GetByID`: the identifier is parsed first; absence is the zero user. */
  ghost function GetByIdResult(users: Users, hexId: string, fault: Option<string>): Result<User>
  {
    match FromHex(hexId)
    case None => Err(InvalidId)
    case Some(oid) =>
      if fault.Some? then Err(Driver(fault.value))
      else if exists n :: n in users && users[n].id == oid then
        var n :| n in users && users[n].id == oid; Ok(WithoutHash(users[n]))
      else Ok(ZeroUser)
  }

  // ---------------------------------------------------------------------------
  // Properties

  /** An empty username or password is refused before the collection is counted or written. */
  lemma CreateRequiresBothFields(users: Users, username: string, password: string, salt: nat, newId: ObjectId,
                                 fault: Option<string>)
    requires username == "" || password == ""
    ensures CreateUserStep(users, username, password, salt, newId, fault) == (Err(CredentialsRequired), users)
  {
  }

  /** A taken username is refused with "username already exists" and nothing changes. */
  lemma CreateRefusesTakenName(users: Users, username: string, password: string, salt: nat, newId: ObjectId)
    requires username != "" && username in users && password != ""
    ensures CreateUserStep(users, username, password, salt, newId, None) == (Err(UsernameTaken), users)
  {
  }

  /** A successful create: the new user is admin exactly when the collection was empty;
      the stored record carries the password's hash, which verifies; the returned user is
      the stored one without the hash, under the new ID. */
  lemma CreateUserBehaviour(users: Users, username: string, password: string, salt: nat, newId: ObjectId,
                            fault: Option<string>)
    ensures var (r, after) := CreateUserStep(users, username, password, salt, newId, fault);
            r.Ok? ==>
              && username != "" && password != "" && fault.None? && username !in users
              && (r.value.role == AdminRole <==> |users| == 0)
              && (r.value.role == UserRole <==> |users| != 0)
              && after == users[username := r.value.(passwordHash := Hash(password, salt))]
              && Verify(after[username].passwordHash, password)
              && r.value == WithoutHash(after[username])
              && r.value.passwordHash == NoDigest && r.value.id == newId && r.value.username == username
    ensures var (r, after) := CreateUserStep(users, username, password, salt, newId, fault);
            r.Err? ==> after == users
  {
  }

  /** A sign-up request, with the salt and the ID the environment would supply. */
  datatype SignUp = SignUp(username: string, password: string, salt: nat, newId: ObjectId, fault: Option<string>)

  /** A run of `CreateUser` calls, one after another. */
  function CreateAll(users: Users, reqs: seq<SignUp>): (r: (seq<Result<User>>, Users))
    ensures |r.0| == |reqs|
    decreases |reqs|
  {
    if reqs == [] then ([], users)
    else
      var q := reqs[0];
      var step := CreateUserStep(users, q.username, q.password, q.salt, q.newId, q.fault);
      var tail := CreateAll(step.1, reqs[1..]);
      ([step.0] + tail.0, tail.1)
  }

  /** In `rs`, a success creates an admin exactly when the collection started `empty`
      and no earlier call succeeded. */
  ghost predicate BootstrapRoles(empty: bool, rs: seq<Result<User>>)
  {
    forall i :: 0 <= i < |rs| && rs[i].Ok? ==>
      && (rs[i].value.role == AdminRole || rs[i].value.role == UserRole)
      && (rs[i].value.role == AdminRole <==> empty && forall j :: 0 <= j < i ==> rs[j].Err?)
  }

  lemma {:induction false} CreateAllRoles(users: Users, reqs: seq<SignUp>)
    ensures BootstrapRoles(|users| == 0, CreateAll(users, reqs).0)
    decreases |reqs|
  {
    if reqs != [] {
      var q := reqs[0];
      var step := CreateUserStep(users, q.username, q.password, q.salt, q.newId, q.fault);
      var first, users1 := step.0, step.1;
      CreateAllRoles(users1, reqs[1..]);
      var rest := CreateAll(users1, reqs[1..]).0;
      var rs := CreateAll(users, reqs).0;
      assert rs == [first] + rest;
      if first.Ok? {
        assert q.username in users1 && |users1| != 0;
      } else {
        assert users1 == users;
      }
      forall i | 0 <= i < |rs| && rs[i].Ok?
        ensures rs[i].value.role == AdminRole <==> |users| == 0 && forall j :: 0 <= j < i ==> rs[j].Err?
      {
        if i == 0 {
          assert rs[0] == first;
          assert first.value.role == if |users| == 0 then AdminRole else UserRole;
        } else {
          assert rs[i] == rest[i - 1];
          assert rest[i - 1].Ok?;
          assert BootstrapRoles(|users1| == 0, rest);
          assert rest[i - 1].value.role == AdminRole <==> |users1| == 0 && forall j :: 0 <= j < i - 1 ==> rest[j].Err?;
          if first.Ok? {
            assert !(forall j :: 0 <= j < i ==> rs[j].Err?) by { assert rs[0].Ok?; }
          } else {
            if forall j :: 0 <= j < i - 1 ==> rest[j].Err? {
              forall j | 0 <= j < i ensures rs[j].Err? {
                if j > 0 { assert rs[j] == rest[j - 1]; }
              }
            }
            if forall j :: 0 <= j < i ==> rs[j].Err? {
              forall j | 0 <= j < i - 1 ensures rest[j].Err? {
                assert rs[j + 1] == rest[j];
              }
            }
          }
        }
      }
    }
  }

  /** The bootstrap-admin rule: starting from an empty collection, of any run of
      `CreateUser` calls exactly the first one that succeeds creates an admin, and every
      later success creates a plain user. */
  lemma OnlyFirstUserIsAdmin(reqs: seq<SignUp>)
    ensures var rs := CreateAll(map[], reqs).0;
            forall i :: 0 <= i < |rs| && rs[i].Ok? ==>
              && (rs[i].value.role == AdminRole <==> forall j :: 0 <= j < i ==> rs[j].Err?)
              && (rs[i].value.role == UserRole <==> exists j :: 0 <= j < i && rs[j].Ok?)
  {
    CreateAllRoles(map[], reqs);
  }

  /** Authentication fails with the one error "invalid credentials" whether the name is
      unknown or the password wrong, and succeeds exactly for a stored name whose
      digest verifies, returning the stored user with the hash cleared. */
  lemma AuthenticateUniformly(users: Users, username: string, password: string)
    ensures var r := AuthenticateResult(users, username, password, None);
            && (r.Ok? <==> username in users && Verify(users[username].passwordHash, password))
            && (r.Err? ==> r == Err(InvalidCredentials))
            && (r.Ok? ==> r.value == WithoutHash(users[username]) && r.value.passwordHash == NoDigest)
  {
  }

  /** Signing up and then logging in with the same password succeeds and yields the user
      the sign-up returned. */
  lemma CreateThenAuthenticate(users: Users, username: string, password: string, salt: nat, newId: ObjectId)
    requires CreateUserStep(users, username, password, salt, newId, None).0.Ok?
    ensures var (r, after) := CreateUserStep(users, username, password, salt, newId, None);
            AuthenticateResult(after, username, password, None) == r
  {
  }

  /** Promotion sets the role to admin, keeps the name, ID and digest, returns the
      updated user without the hash, and changes no other user; an unknown name yields
      the zero user with no error and no change. */
  lemma PromoteBehaviour(users: Users, username: string)
    ensures var (r, after) := PromoteUserStep(users, username, None);
            && r.Ok?
            && (username !in users ==> r.value == ZeroUser && after == users)
            && (username in users ==>
                  && after.Keys == users.Keys
                  && after[username] == users[username].(role := AdminRole)
                  && r.value == WithoutHash(after[username])
                  && (forall n :: n in users && n != username ==> after[n] == users[n]))
  {
  }

  /** Promotion is idempotent: promoting twice leaves what promoting once leaves and
      returns the same user. */
  lemma PromoteIdempotent(users: Users, username: string)
    ensures var (r1, after1) := PromoteUserStep(users, username, None);
            PromoteUserStep(after1, username, None) == (r1, after1)
  {
    var after1 := PromoteUserStep(users, username, None).1;
    if username in users {
      assert after1[username := after1[username].(role := AdminRole)] == after1;
    }
  }

  /** Lookup by name and by ID: absence is the zero user and no error; a present user
      comes back without the hash, and in a well-formed directory never looks like the
      zero user; a malformed hex ID is refused with "invalid id". */
  lemma LookupBehaviour(users: Users, username: string, hexId: string)
    requires Directory(users)
    ensures var r := FindByUsernameResult(users, username, None);
            && r.Ok?
            && (r.value == ZeroUser <==> username !in users)
            && (username in users ==> r.value.username == username && r.value.id == users[username].id
                                      && r.value.role == users[username].role && r.value.passwordHash == NoDigest)
    ensures !ValidId(hexId) ==> GetByIdResult(users, hexId, None) == Err(InvalidId)
    ensures ValidId(hexId) ==>
              var oid := FromHex(hexId).value;
              && GetByIdResult(users, hexId, None).Ok?
              && (forall n :: n in users && users[n].id == oid ==>
                   GetByIdResult(users, hexId, None).value == WithoutHash(users[n]))
              && (IdUnused(users, oid) ==> GetByIdResult(users, hexId, None).value == ZeroUser)
  {
  }

  /** IsEmpty answers, when the driver succeeds, whether no user at all is stored. */
  lemma IsEmptyBehaviour(users: Users)
    ensures IsEmptyResult(users, None).Ok?
    ensures IsEmptyResult(users, None).value <==> forall n :: n !in users
  {
    if !IsEmptyResult(users, None).value {
      assert users != map[];
      var n :| n in users;
    }
  }

  /** Adding one user never leaves a non-empty collection without an admin: into an
      empty one the first user is made an admin, and an existing admin is kept. */
  lemma CreateKeepsAdmin(users: Users, username: string, password: string, salt: nat, newId: ObjectId,
                         fault: Option<string>)
    requires HasAdmin(users)
    ensures HasAdmin(CreateUserStep(users, username, password, salt, newId, fault).1)
  {
    var after := CreateUserStep(users, username, password, salt, newId, fault).1;
    if after != users {
      if users == map[] {
        assert username in after && after[username].role == AdminRole;
      } else {
        var n :| n in users && users[n].role == AdminRole;
        assert n != username && n in after && after[n] == users[n];
      }
    }
  }

  /** A run of sign-ups keeps an admin in any non-empty collection it starts from or
      builds; from an empty collection, whoever gets stored includes an admin. */
  lemma {:induction false} CreateAllKeepsAdmin(users: Users, reqs: seq<SignUp>)
    requires HasAdmin(users)
    ensures HasAdmin(CreateAll(users, reqs).1)
    decreases |reqs|
  {
    if reqs != [] {
      var q := reqs[0];
      CreateKeepsAdmin(users, q.username, q.password, q.salt, q.newId, q.fault);
      CreateAllKeepsAdmin(CreateUserStep(users, q.username, q.password, q.salt, q.newId, q.fault).1, reqs[1..]);
    }
  }

  /** Creating with a fresh non-nil ID keeps the directory well-formed: in particular
      the first user made is an admin. */
  lemma CreateKeepsDirectory(users: Users, username: string, password: string, salt: nat, newId: ObjectId,
                             fault: Option<string>)
    requires Directory(users)
    requires !IsZero(newId) && IdUnused(users, newId)
    ensures Directory(CreateUserStep(users, username, password, salt, newId, fault).1)
  {
    var after := CreateUserStep(users, username, password, salt, newId, fault).1;
    if after != users {
      var u := after[username];
      assert username !in users && after == users[username := u];
      assert u.id == newId && u.username == username && username != "" && u.passwordHash.Digest?;
      assert u.role == AdminRole || u.role == UserRole;
      assert RecordsWellFormed(after);
      forall a, b | a in after && b in after && a != b
        ensures after[a].id != after[b].id
      {
        if a == username {
          assert after[b] == users[b];
        } else if b == username {
          assert after[a] == users[a];
        }
      }
      if |users| == 0 {
        assert after[username].role == AdminRole;
      } else {
        assert users != map[];
        var a :| a in users && users[a].role == AdminRole;
        assert after[a].role == AdminRole;
      }
    }
  }

  /** Promotion keeps the directory well-formed: it only adds admins. */
  lemma PromoteKeepsDirectory(users: Users, username: string, fault: Option<string>)
    requires Directory(users)
    ensures Directory(PromoteUserStep(users, username, fault).1)
  {
    var promoted := PromoteUserStep(users, username, fault).1;
    if promoted != users {
      assert promoted[username].role == AdminRole;
    }
  }

  // ---------------------------------------------------------------------------
  // The service

  class UserService {

    /** The collection's users by username (the unique index). */
    var users: Users

    ghost predicate Valid()
      reads this
    {
      Directory(users)
    }

    constructor ()
      ensures Valid() && users == map[]
    {
      users := map[];
    }

    /** `newId` is the ObjectID the driver would generate: never nil, never in use;
        `salt` is bcrypt's randomness. */
    method CreateUser(username: string, password: string, salt: nat, newId: ObjectId, fault: Option<string>)
      returns (r: Result<User>)
      requires Valid()
      requires !IsZero(newId) && IdUnused(users, newId)
      modifies this
      ensures Valid()
      ensures (r, users) == CreateUserStep(old(users), username, password, salt, newId, fault)
    {
      CreateKeepsDirectory(users, username, password, salt, newId, fault);
      if username == "" || password == "" {
        return Err(CredentialsRequired);
      }
      if fault.Some? {
        return Err(Driver(fault.value));
      }
      var count := |users|;
      var hash := Hash(password, salt);
      var role := UserRole;
      if count == 0 {
        role := AdminRole;
      }
      var u := User(Zero, username, hash, role);
      if username in users {
        return Err(UsernameTaken);
      }
      u := u.(id := newId);
      users := users[username := u];
      u := u.(passwordHash := NoDigest);
      r := Ok(u);
    }

    method Authenticate(username: string, password: string, fault: Option<string>) returns (r: Result<User>)
      ensures r == AuthenticateResult(users, username, password, fault)
    {
      if fault.Some? {
        return Err(Driver(fault.value));
      }
      if username !in users {
        return Err(InvalidCredentials);
      }
      var u := users[username];
      if !Verify(u.passwordHash, password) {
        return Err(InvalidCredentials);
      }
      u := u.(passwordHash := NoDigest);
      r := Ok(u);
    }

    method FindByUsername(username: string, fault: Option<string>) returns (r: Result<User>)
      ensures r == FindByUsernameResult(users, username, fault)
    {
      if fault.Some? {
        return Err(Driver(fault.value));
      }
      if username !in users {
        return Ok(ZeroUser);
      }
      var u := users[username];
      u := u.(passwordHash := NoDigest);
      r := Ok(u);
    }

    method PromoteUser(username: string, fault: Option<string>) returns (r: Result<User>)
      requires Valid()
      modifies this
      ensures Valid()
      ensures (r, users) == PromoteUserStep(old(users), username, fault)
    {
      PromoteKeepsDirectory(users, username, fault);
      if fault.Some? {
        return Err(Driver(fault.value));
      }
      if username !in users {
        return Ok(ZeroUser);
      }
      var updated := users[username].(role := AdminRole);
      users := users[username := updated];
      updated := updated.(passwordHash := NoDigest);
      r := Ok(updated);
    }

    method IsEmpty(fault: Option<string>) returns (r: Result<bool>)
      ensures r == IsEmptyResult(users, fault)
    {
      if fault.Some? {
        return Err(Driver(fault.value));
      }
      var count := |users|;
      r := Ok(count == 0);
    }

    method GetByID(hexId: string, fault: Option<string>) returns (r: Result<User>)
      requires Valid()
      ensures r == GetByIdResult(users, hexId, fault)
    {
      var oid := FromHex(hexId);
      if oid.None? {
        return Err(InvalidId);
      }
      if fault.Some? {
        return Err(Driver(fault.value));
      }
      if exists n :: n in users && users[n].id == oid.value {
        var n :| n in users && users[n].id == oid.value;
        var u := users[n];
        u := u.(passwordHash := NoDigest);
        r := Ok(u);
      } else {
        r := Ok(ZeroUser);
      }
    }
  }
}
