/** The two access gates (middleware/auth_middleware.go). The decisions are functions
    from the request's context keys and Authorization header to an outcome; the
    middleware's handlers apply them to a request `Context` object, setting keys or
    aborting the chain. */
module AuthMiddleware {

  import opened Common
  import opened Jwt
  import opened Http

  // ---------------------------------------------------------------------------
  // strings.Fields and strings.ToLower

  /** `unicode.IsSpace`: the Latin-1 spaces and the other White_Space characters. */
  predicate IsSpace(c: char)
  {
    var n := c as int;
    || n == 0x09 || n == 0x0A || n == 0x0B || n == 0x0C || n == 0x0D || n == 0x20
    || n == 0x85 || n == 0xA0 || n == 0x1680 || (0x2000 <= n <= 0x200A)
    || n == 0x2028 || n == 0x2029 || n == 0x202F || n == 0x205F || n == 0x3000
  }

  predicate IsWord(s: string)
  {
    s != [] && forall i :: 0 <= i < |s| ==> !IsSpace(s[i])
  }

  predicate AllSpace(s: string)
  {
    forall i :: 0 <= i < |s| ==> IsSpace(s[i])
  }

  /** The length of the longest prefix of `s` without white space. */
  function WordLen(s: string): (n: nat)
    ensures n <= |s|
    ensures forall i :: 0 <= i < n ==> !IsSpace(s[i])
    ensures n < |s| ==> IsSpace(s[n])
  {
    if s == [] || IsSpace(s[0]) then 0 else 1 + WordLen(s[1..])
  }

  /** `strings.Fields`: the maximal runs of characters that are not white space. */
  function Fields(s: string): seq<string>
    decreases |s|
  {
    if s == [] then []
    else if IsSpace(s[0]) then Fields(s[1..])
    else
      var n := WordLen(s);
      [s[..n]] + Fields(s[n..])
  }

  function LowerChar(c: char): char
  {
    if 'A' <= c <= 'Z' then (c as int + 32) as char else c
  }

  /** `strings.ToLower` on the ASCII letters. For the comparison with "bearer" this is
      exact: no character outside ASCII lower-cases to one of its letters. */
  function ToLower(s: string): (r: string)
    ensures |r| == |s|
  {
    seq(|s|, i requires 0 <= i < |s| => LowerChar(s[i]))
  }

  /** Every field is a non-empty run without white space. */
  lemma {:induction false} FieldsAreWords(s: string)
    ensures forall i :: 0 <= i < |Fields(s)| ==> IsWord(Fields(s)[i])
    decreases |s|
  {
    if s != [] {
      if IsSpace(s[0]) {
        FieldsAreWords(s[1..]);
      } else {
        var n := WordLen(s);
        FieldsAreWords(s[n..]);
        assert Fields(s) == [s[..n]] + Fields(s[n..]);
      }
    }
  }

  /** Leading white space does not change the fields. */
  lemma {:induction false} FieldsSkipSpace(w: string, s: string)
    requires AllSpace(w)
    ensures Fields(w + s) == Fields(s)
    decreases |w|
  {
    if w != [] {
      var ws := w + s;
      assert ws != [] && ws[0] == w[0] && IsSpace(ws[0]);
      assert ws[1..] == w[1..] + s;
      FieldsSkipSpace(w[1..], s);
      assert Fields(ws) == Fields(ws[1..]);
    } else {
      assert w + s == s;
    }
  }

  lemma {:induction false} WordLenOfWord(a: string, rest: string)
    requires IsWord(a) || a == []
    requires rest == [] || IsSpace(rest[0])
    ensures WordLen(a + rest) == |a|
    decreases |a|
  {
    if a != [] {
      assert (a + rest)[1..] == a[1..] + rest;
      WordLenOfWord(a[1..], rest);
    }
  }

  /** A word followed by white space or the end is the first field. */
  lemma FieldsOfWord(a: string, rest: string)
    requires IsWord(a)
    requires rest == [] || IsSpace(rest[0])
    ensures Fields(a + rest) == [a] + Fields(rest)
  {
    WordLenOfWord(a, rest);
    assert (a + rest)[..|a|] == a;
    assert (a + rest)[|a|..] == rest;
  }

  /** Two words separated by white space, with any white space around them, are
      exactly two fields. */
  lemma FieldsOfTwo(w1: string, a: string, w2: string, b: string, w3: string)
    requires AllSpace(w1) && AllSpace(w2) && AllSpace(w3) && w2 != []
    requires IsWord(a) && IsWord(b)
    ensures Fields(w1 + a + w2 + b + w3) == [a, b]
  {
    assert w1 + a + w2 + b + w3 == w1 + (a + (w2 + (b + w3)));
    FieldsSkipSpace(w1, a + (w2 + (b + w3)));
    FieldsOfWord(a, w2 + (b + w3));
    FieldsSkipSpace(w2, b + w3);
    FieldsOfWord(b, w3);
    FieldsSkipSpace(w3, []);
    assert w3 + [] == w3;
  }

  // ---------------------------------------------------------------------------
  // The Authorization header

  datatype Header = Missing | Malformed | Bearer(token: string)

  /** Whitespace-split into exactly two fields, the first "bearer" in any case. This is
      looser than the `Bearer <token>` form of section 2.1 of RFC 6750: any case of the
      scheme and any run of white space are accepted. */
  function ParseHeader(h: string): (r: Header)
    ensures r == Missing <==> h == ""
    ensures r.Bearer? <==> h != "" && |Fields(h)| == 2 && ToLower(Fields(h)[0]) == "bearer"
    ensures r.Bearer? ==> r.token == Fields(h)[1]
  {
    if h == "" then Missing
    else
      var parts := Fields(h);
      if |parts| != 2 || ToLower(parts[0]) != "bearer" then Malformed
      else Bearer(parts[1])
  }

  /** A header made of a scheme that lower-cases to "bearer" and a token, with any white
      space around and between, yields that token. */
  lemma BearerAccepted(w1: string, scheme: string, w2: string, token: string, w3: string)
    requires AllSpace(w1) && AllSpace(w2) && AllSpace(w3) && w2 != []
    requires ToLower(scheme) == "bearer"
    requires IsWord(token)
    ensures ParseHeader(w1 + scheme + w2 + token + w3) == Bearer(token)
  {
    assert IsWord(scheme) by {
      forall i | 0 <= i < |scheme| ensures !IsSpace(scheme[i]) {
        assert ToLower(scheme)[i] == LowerChar(scheme[i]);
      }
    }
    FieldsOfTwo(w1, scheme, w2, token, w3);
  }

  /** A token handed on by the header check is a single non-empty word. */
  lemma BearerTokenIsWord(h: string)
    requires ParseHeader(h).Bearer?
    ensures IsWord(ParseHeader(h).token)
  {
    FieldsAreWords(h);
  }

  // ---------------------------------------------------------------------------
  // Claims and the request context

  /** `v.(string)` with the failure ignored: a value that is not a string reads as "". */
  function AsString(v: Json): string
  {
    if v.JString? then v.s else ""
  }

  datatype Identity = Identity(username: string, role: string)

  /** Both claims must be present; their values are read as strings. */
  function ExtractIdentity(claims: Claims): (r: Option<Identity>)
    ensures r.Some? <==> "username" in claims && "role" in claims
    ensures r.Some? ==> r.value.username == AsString(claims["username"]) && r.value.role == AsString(claims["role"])
  {
    if "username" !in claims || "role" !in claims then None
    else Some(Identity(AsString(claims["username"]), AsString(claims["role"])))
  }

  /** Values in the request context: the gates only ever store strings. */
  datatype CtxValue = CtxString(s: string) | CtxOther

  type Keys = map<string, CtxValue>

  datatype GateOutcome = Abort(response: Response) | Next(keys: Keys)

  /** `AuthRequired`: header present, well-formed, a valid token, a complete payload;
      then "username" and "role" are set and the chain goes on. */
  function AuthDecision(keys: Keys, header: string, decode: string -> Option<Jws>, secret: string, now: int)
    : (r: GateOutcome)
    ensures header == "" ==> r == Abort(Fail(StatusUnauthorized, "Missing Authorization header"))
    ensures r.Abort? ==> r.response.status == StatusUnauthorized && r.response.body.ErrorBody?
    ensures r.Next? <==>
              && ParseHeader(header).Bearer?
              && ParseToken(ParseHeader(header).token, decode, secret, now).Some?
              && ExtractIdentity(ParseToken(ParseHeader(header).token, decode, secret, now).value).Some?
    ensures r.Next? ==>
              var id := ExtractIdentity(ParseToken(ParseHeader(header).token, decode, secret, now).value).value;
              && r.keys.Keys == keys.Keys + {"username", "role"}
              && r.keys["username"] == CtxString(id.username)
              && r.keys["role"] == CtxString(id.role)
              && (forall k :: k in keys && k != "username" && k != "role" ==> r.keys[k] == keys[k])
  {
    match ParseHeader(header)
    case Missing => Abort(Fail(StatusUnauthorized, "Missing Authorization header"))
    case Malformed => Abort(Fail(StatusUnauthorized, "Invalid Authorization header"))
    case Bearer(token) =>
      match ParseToken(token, decode, secret, now)
      case None => Abort(Fail(StatusUnauthorized, "Invalid token"))
      case Some(claims) =>
        match ExtractIdentity(claims)
        case None => Abort(Fail(StatusUnauthorized, "Invalid token payload"))
        case Some(id) => Next(keys["username" := CtxString(id.username)]["role" := CtxString(id.role)])
  }

  /** The failures of the header check, in the order the handler tests them. */
  lemma AuthRejections(keys: Keys, header: string, decode: string -> Option<Jws>, secret: string, now: int)
    ensures ParseHeader(header) == Malformed ==>
              AuthDecision(keys, header, decode, secret, now) == Abort(Fail(StatusUnauthorized, "Invalid Authorization header"))
    ensures ParseHeader(header).Bearer? && ParseToken(ParseHeader(header).token, decode, secret, now).None? ==>
              AuthDecision(keys, header, decode, secret, now) == Abort(Fail(StatusUnauthorized, "Invalid token"))
    ensures ParseHeader(header).Bearer? && ParseToken(ParseHeader(header).token, decode, secret, now).Some?
            && ExtractIdentity(ParseToken(ParseHeader(header).token, decode, secret, now).value).None? ==>
              AuthDecision(keys, header, decode, secret, now) == Abort(Fail(StatusUnauthorized, "Invalid token payload"))
  {
  }

  /** A token whose algorithm is not HMAC is refused, whatever it is signed with; so is
      one signed under another key, and one outside its validity window. */
  lemma OnlyHmacUnderSecretInWindow(keys: Keys, header: string, decode: string -> Option<Jws>, secret: string, now: int)
    requires ParseHeader(header).Bearer?
    requires decode(ParseHeader(header).token).Some?
    requires var jws := decode(ParseHeader(header).token).value;
             !IsHmac(jws.alg) || jws.signingKey != secret || !TimeValid(jws.claims, now)
    ensures AuthDecision(keys, header, decode, secret, now) == Abort(Fail(StatusUnauthorized, "Invalid token"))
  {
  }

  /** Claims of the wrong type are not refused: they reach the context as "". */
  lemma NonStringClaimsBecomeEmpty(keys: Keys, header: string, decode: string -> Option<Jws>, secret: string, now: int)
    requires ParseHeader(header).Bearer?
    requires ParseToken(ParseHeader(header).token, decode, secret, now).Some?
    requires var claims := ParseToken(ParseHeader(header).token, decode, secret, now).value;
             "username" in claims && "role" in claims && !claims["role"].JString?
    ensures AuthDecision(keys, header, decode, secret, now).Next?
    ensures AuthDecision(keys, header, decode, secret, now).keys["role"] == CtxString("")
  {
  }

  /** `RequireAdmin`: reads nothing but the "role" key; passes only "admin", exactly. */
  function AdminDecision(keys: Keys): (r: GateOutcome)
    ensures "role" !in keys ==> r == Abort(Fail(StatusForbidden, "forbidden"))
    ensures "role" in keys && keys["role"] != CtxString("admin") ==>
              r == Abort(Fail(StatusForbidden, "admin access required"))
    ensures r.Next? <==> "role" in keys && keys["role"] == CtxString("admin")
    ensures r.Next? ==> r.keys == keys
  {
    if "role" !in keys then Abort(Fail(StatusForbidden, "forbidden"))
    else
      var role := if keys["role"].CtxString? then keys["role"].s else "";
      if role != "admin" then Abort(Fail(StatusForbidden, "admin access required"))
      else Next(keys)
  }

  // ---------------------------------------------------------------------------
  // The handlers on a request context

  /** The part of `gin.Context` the gates use: the request's Authorization header, the
      key/value store, and the response written by an abort. */
  class Context {
    const header: string
    var keys: Keys
    var aborted: Option<Response>

    constructor (header: string)
      ensures this.header == header && keys == map[] && aborted == None
    {
      this.header := header;
      keys := map[];
      aborted := None;
    }

    method Set(key: string, value: CtxValue)
      modifies this
      ensures keys == old(keys)[key := value] && aborted == old(aborted)
    {
      keys := keys[key := value];
    }

    method AbortWithStatusJSON(status: int, error: string)
      modifies this
      ensures aborted == Some(Fail(status, error)) && keys == old(keys)
    {
      aborted := Some(Fail(status, error));
    }
  }

  class AuthMiddleware {
    const secret: string

    constructor (secret: string)
      ensures this.secret == secret
    {
      this.secret := secret;
    }

    /** `decode` parses a compact token; `now` is the clock reading. */
    method AuthRequired(c: Context, decode: string -> Option<Jws>, now: int)
      modifies c
      ensures match AuthDecision(old(c.keys), c.header, decode, secret, now)
              case Abort(resp) => c.aborted == Some(resp) && c.keys == old(c.keys)
              case Next(keys) => c.keys == keys && c.aborted == old(c.aborted)
    {
      var h := c.header;
      if h == "" {
        c.AbortWithStatusJSON(StatusUnauthorized, "Missing Authorization header");
        return;
      }
      var parts := Fields(h);
      if |parts| != 2 || ToLower(parts[0]) != "bearer" {
        c.AbortWithStatusJSON(StatusUnauthorized, "Invalid Authorization header");
        return;
      }
      var tokenString := parts[1];
      var token := ParseToken(tokenString, decode, secret, now);
      if token.None? {
        c.AbortWithStatusJSON(StatusUnauthorized, "Invalid token");
        return;
      }
      var claims := token.value;
      if "username" !in claims || "role" !in claims {
        c.AbortWithStatusJSON(StatusUnauthorized, "Invalid token payload");
        return;
      }
      var username := AsString(claims["username"]);
      var role := AsString(claims["role"]);
      c.Set("username", CtxString(username));
      c.Set("role", CtxString(role));
    }

    method RequireAdmin(c: Context)
      modifies c
      ensures match AdminDecision(old(c.keys))
              case Abort(resp) => c.aborted == Some(resp) && c.keys == old(c.keys)
              case Next(keys) => c.keys == keys && c.aborted == old(c.aborted)
    {
      if "role" !in c.keys {
        c.AbortWithStatusJSON(StatusForbidden, "forbidden");
        return;
      }
      var roleI := c.keys["role"];
      var role := if roleI.CtxString? then roleI.s else "";
      if role != "admin" {
        c.AbortWithStatusJSON(StatusForbidden, "admin access required");
        return;
      }
    }
  }
}
