/**
 * middlewares/auth.js, `protect`: which token the request carries, what verifying it yields, and
 * the 401 messages. `jwt.verify` and the user lookup are oracles handed in as functions.
 */
module AuthMiddleware {
  import opened Base
  import opened Strings

  /** What `jwt.verify(token, secret)` does: returns the decoded `{id}` or throws an error with a `name`. */
  datatype Verified = Decoded(id: UserId) | VerifyThrew(name: string)

  /** What `User.findById(decoded.id)` does: finds the user, finds none, or throws an error with a `name`. */
  datatype Lookup = Found | NotFound | LookupThrew(name: string)

  /** `next()` is called with `req.user` set, or the request is answered with an error. */
  datatype Guard = Next(user: UserId) | Reject(status: nat, message: string)

  const NO_TOKEN := "Not authorized, no token"
  const SESSION_EXPIRED := "Session expired, please login again"
  const INVALID_TOKEN := "Invalid token"
  const NOT_AUTHORIZED := "Not authorized"

  /** The name of the plain `Error` thrown at line 84 when the decoded id has no user. */
  const PLAIN_ERROR := "Error"

  /** `authorization.split(' ')[1]`, undefined when the header holds no space. */
  function BearerField(header: string): Option<string> {
    var parts := Split(header, ' ');
    if |parts| > 1 then Some(parts[1]) else None
  }

  /** After a separator-free scheme and one space, the field is the first piece of what follows. */
  lemma SecondPiece(scheme: string, t: string)
    requires ' ' !in scheme
    ensures BearerField(scheme + [' '] + t) == Some(Split(t, ' ')[0])
  {
    SplitCons(scheme, t, ' ');
  }

  /** The token is the second space-separated field of the header, whatever follows it. */
  lemma BearerFieldIsSecondField(scheme: string, token: string, rest: string)
    requires ' ' !in scheme && ' ' !in token
    ensures BearerField(scheme + " " + token) == Some(token)
    ensures BearerField(scheme + " " + token + " " + rest) == Some(token)
  {
    assert scheme + " " + token == scheme + [' '] + token;
    SecondPiece(scheme, token);
    SplitNoSep(token, ' ');
    var t := token + [' '] + rest;
    assert scheme + " " + token + " " + rest == scheme + [' '] + t;
    SecondPiece(scheme, t);
    SplitCons(token, rest, ' ');
  }

  /** A header without a space carries no token field. */
  lemma NoSpaceNoField(header: string)
    requires ' ' !in header
    ensures BearerField(header) == None
  {
    SplitNoSep(header, ' ');
  }

  /** The header is used when it is truthy and starts with `Bearer`. */
  predicate BearerHeader(authorization: Option<string>) {
    Truthy(authorization) && StartsWith(authorization.value, "Bearer")
  }

  /** The value of the local `token` after lines 59-65. */
  function SelectToken(authorization: Option<string>, cookie: Option<string>): Option<string> {
    if BearerHeader(authorization) then BearerField(authorization.value)
    else if Truthy(cookie) then cookie
    else None
  }

  /** A `Bearer` header takes precedence: the cookie plays no part in the choice. */
  lemma HeaderWins(authorization: Option<string>, cookie1: Option<string>, cookie2: Option<string>)
    requires BearerHeader(authorization)
    ensures SelectToken(authorization, cookie1) == SelectToken(authorization, cookie2)
    ensures SelectToken(authorization, cookie1) == BearerField(authorization.value)
  {
  }

  /** Without a `Bearer` header the cookie is the token when truthy, and there is none otherwise. */
  lemma CookieFallback(authorization: Option<string>, cookie: Option<string>)
    requires !BearerHeader(authorization)
    ensures Truthy(cookie) ==> SelectToken(authorization, cookie) == cookie
    ensures !Truthy(cookie) ==> SelectToken(authorization, cookie) == None
  {
  }

  /** A bare `Bearer` header yields no token even when a cookie is present. */
  lemma BareBearerHasNoToken(cookie: Option<string>)
    ensures SelectToken(Some("Bearer"), cookie) == None
  {
    NoSpaceNoField("Bearer");
  }

  /** The catch block's mapping from the error's `name` to the message; the status is always 401. */
  function ErrorMessage(name: string): (m: string)
    ensures m == SESSION_EXPIRED <==> name == "TokenExpiredError"
    ensures m == INVALID_TOKEN <==> name == "JsonWebTokenError"
    ensures m == NOT_AUTHORIZED <==> name != "TokenExpiredError" && name != "JsonWebTokenError"
  {
    if name == "TokenExpiredError" then SESSION_EXPIRED
    else if name == "JsonWebTokenError" then INVALID_TOKEN
    else NOT_AUTHORIZED
  }

  /** `protect` as a whole. Every error raised inside the `try`, the missing user included, is re-thrown by the catch. */
  function Protect(authorization: Option<string>, cookie: Option<string>,
                   verify: string -> Verified, lookup: UserId -> Lookup): (g: Guard)
    ensures g.Reject? ==> g.status == 401
    ensures !Truthy(SelectToken(authorization, cookie)) ==> g == Reject(401, NO_TOKEN)
    ensures g.Next? <==>
      var token := SelectToken(authorization, cookie);
      Truthy(token) && verify(token.value).Decoded? && lookup(verify(token.value).id) == Found
    ensures g.Next? ==> g.user == verify(SelectToken(authorization, cookie).value).id
    ensures var token := SelectToken(authorization, cookie);
      Truthy(token) && verify(token.value).VerifyThrew? ==> g == Reject(401, ErrorMessage(verify(token.value).name))
    ensures var token := SelectToken(authorization, cookie);
      Truthy(token) && verify(token.value).Decoded? && lookup(verify(token.value).id).LookupThrew? ==>
        g == Reject(401, ErrorMessage(lookup(verify(token.value).id).name))
    ensures var token := SelectToken(authorization, cookie);
      Truthy(token) && verify(token.value).Decoded? && lookup(verify(token.value).id) == NotFound ==>
        g == Reject(401, ErrorMessage(PLAIN_ERROR))
  {
    var token := SelectToken(authorization, cookie);
    if !Truthy(token) then Reject(401, NO_TOKEN)
    else
      match verify(token.value)
      case VerifyThrew(name) => Reject(401, ErrorMessage(name))
      case Decoded(id) =>
        match lookup(id)
        case Found => Next(id)
        case NotFound => Reject(401, ErrorMessage(PLAIN_ERROR))
        case LookupThrew(name) => Reject(401, ErrorMessage(name))
  }

  /** Without a token neither oracle is consulted: the outcome is the same whatever they would say. */
  lemma NoTokenSkipsVerification(authorization: Option<string>, cookie: Option<string>,
                                 verify1: string -> Verified, lookup1: UserId -> Lookup,
                                 verify2: string -> Verified, lookup2: UserId -> Lookup)
    requires !Truthy(SelectToken(authorization, cookie))
    ensures Protect(authorization, cookie, verify1, lookup1) == Protect(authorization, cookie, verify2, lookup2)
  {
  }

  /** A token whose id has no user is rejected with the generic message, not `User not found`. */
  lemma MissingUserIsNotAuthorized(authorization: Option<string>, cookie: Option<string>,
                                   verify: string -> Verified, lookup: UserId -> Lookup)
    requires Truthy(SelectToken(authorization, cookie))
    requires verify(SelectToken(authorization, cookie).value).Decoded?
    requires lookup(verify(SelectToken(authorization, cookie).value).id) == NotFound
    ensures Protect(authorization, cookie, verify, lookup) == Reject(401, NOT_AUTHORIZED)
  {
  }
}
