/** The stored records and the response projection of a task. */
module Models {

  import opened ObjectIds

  /** A task document. Empty strings stand for the optional fields left unset. */
  datatype Task = Task(id: ObjectId, title: string, description: string, dueDate: string, status: string)

  /** `models.Task{}`: what the services return for "nothing found". */
  const ZeroTask: Task := Task(Zero, "", "", "", "")

  /** gin's `ShouldBindJSON` into a task, for a body that is well-formed JSON: the
      `binding:"required"` tag on the title refuses a body whose title is missing or empty. */
  predicate BindsAsTask(body: Task)
  {
    body.title != ""
  }

  /** What a handler sends for a task: the identifier as a hex string. */
  datatype TaskResponse = TaskResponse(id: string, title: string, description: string, dueDate: string, status: string)

  /** A bcrypt digest, kept symbolic: `Digest(salt, preimage)` is the hash of `preimage`
      under a random `salt`, and the model inspects it only through `Verify`.
      `NoDigest` is the empty string the services put in place of the hash. */
  datatype PasswordDigest = NoDigest | Digest(salt: nat, preimage: string)

  /** `bcrypt.GenerateFromPassword`, with its randomness as the `salt` argument. */
  function Hash(password: string, salt: nat): PasswordDigest
  {
    Digest(salt, password)
  }

  /** `bcrypt.CompareHashAndPassword` succeeding. */
  predicate Verify(digest: PasswordDigest, password: string)
  {
    digest.Digest? && digest.preimage == password
  }

  /** A password verifies against its own hash, whatever the salt, and no other password does. */
  lemma HashThenVerify(password: string, other: string, salt: nat)
    ensures Verify(Hash(password, salt), password)
    ensures Verify(Hash(password, salt), other) <==> other == password
    ensures !Verify(NoDigest, other)
  {
  }

  datatype User = User(id: ObjectId, username: string, passwordHash: PasswordDigest, role: string)

  /** `models.User{}`. */
  const ZeroUser: User := User(Zero, "", NoDigest, "")

  const AdminRole: string := "admin"
  const UserRole: string := "user"

  /** A user as the services hand it out: the hash cleared. */
  function WithoutHash(u: User): (r: User)
    ensures r.passwordHash == NoDigest
    ensures r.id == u.id && r.username == u.username && r.role == u.role
  {
    u.(passwordHash := NoDigest)
  }
}
