/** The parts of a JSON Web Token the core depends on: its claim set (RFC 7519),
    its signing algorithm (section 3.2 of RFC 7518) and the time checks of the
    `exp` and `nbf` claims (sections 4.1.4 and 4.1.5 of RFC 7519) as golang-jwt v5
    applies them with no leeway. Times are whole seconds since the epoch. */
module Jwt {

  import opened Common

  /** Claim values as JSON decodes them; numbers are whole seconds here. */
  datatype Json = JString(s: string) | JNumber(n: int) | JBool(b: bool) | JNull | JComposite

  type Claims = map<string, Json>

  /** A decoded compact JWS. The signature is symbolic: `signingKey` is the key the
      signature was computed with, so it verifies under `k` exactly when `signingKey == k`. */
  datatype Jws = Jws(alg: string, claims: Claims, signingKey: string)

  /** The algorithms golang-jwt implements with `*SigningMethodHMAC`. */
  predicate IsHmac(alg: string)
  {
    alg == "HS256" || alg == "HS384" || alg == "HS512"
  }

  /** How golang-jwt v5 reads a time claim: absent when missing or when it is the
      number 0 (`parseNumericDate` treats a zero float64 as unset); refused when it
      is not a number; otherwise the number of seconds. */
  datatype TimeClaim = Unset | Invalid | At(seconds: int)

  function ReadTime(claims: Claims, key: string): (r: TimeClaim)
    ensures r == Unset <==> key !in claims || claims[key] == JNumber(0)
    ensures r == Invalid <==> key in claims && !claims[key].JNumber?
    ensures r.At? ==> claims[key] == JNumber(r.seconds) && r.seconds != 0
  {
    if key !in claims then Unset
    else match claims[key]
      case JNumber(n) => if n == 0 then Unset else At(n)
      case _ => Invalid
  }

  /** golang-jwt v5 claim validation with no leeway: `exp`, when set, must be later
      than `now`; `nbf`, when set, not later than `now`; a time claim that is not a
      number fails. */
  predicate TimeValid(claims: Claims, now: int)
  {
    && (match ReadTime(claims, "exp") case Unset => true case Invalid => false case At(e) => now < e)
    && (match ReadTime(claims, "nbf") case Unset => true case Invalid => false case At(b) => b <= now)
  }

  /** A zero `exp` or `nbf` is no constraint at all: a token whose `exp` is 0 never
      expires, and one whose other time claim is absent or 0 is valid at every second. */
  lemma ZeroTimeIsUnset(claims: Claims, now: int)
    requires "exp" in claims && claims["exp"] == JNumber(0)
    requires "nbf" !in claims || claims["nbf"] == JNumber(0)
    ensures TimeValid(claims, now)
  {
  }

  /** `jwt.Parse` with a key function that accepts HMAC algorithms only and returns
      `secret`: the claims of a token that decodes, is signed with an HMAC algorithm
      under `secret`, and passes the time checks; None for every other token.
      `decode` stands for the parsing of the compact serialization. */
  function ParseToken(token: string, decode: string -> Option<Jws>, secret: string, now: int): (r: Option<Claims>)
    ensures r.Some? <==>
              decode(token).Some? && IsHmac(decode(token).value.alg)
              && decode(token).value.signingKey == secret
              && TimeValid(decode(token).value.claims, now)
    ensures r.Some? ==> r.value == decode(token).value.claims
  {
    match decode(token)
    case None => None
    case Some(jws) =>
      if !IsHmac(jws.alg) then None
      else if jws.signingKey != secret then None
      else if !TimeValid(jws.claims, now) then None
      else Some(jws.claims)
  }
}
