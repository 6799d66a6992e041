/** The jsonwebtoken leaf. A signed token is modelled by the secret it was
    signed with, its claims and its issue time; signatures are unforgeable, so
    `jwt.verify(token, secret)` succeeds exactly when the secret matches.
    Expiry is not modelled. */
module Tokens {
  import opened Base

  /** The four configured secrets: `access_jwt_secret`, `refresh_jwt_secret`,
      `password_reset_secret` and `forgot_pass_secret`. */
  datatype SecretKind = Access | Refresh | PasswordReset | ForgotPass

  /** The claim shapes the service signs. */
  datatype Claims =
    | Identity(id: UserId, email: Email, role: Role)       // `{ id, email, role }`
    | EmailOnly(email: Email)                              // `{ email }`
    | OtpChallenge(email: Email, role: Role, otp: string)  // `{ email, role, otp }`
    | Subject(userId: Email, role: Role)                   // `{ userId, role }`

  datatype Token = Token(secret: SecretKind, claims: Claims, iat: int)

  /** `jwt.sign(claims, secret)` at time `now`: the token verifies under
      that secret, and only under it, with the claims and issue time it was
      signed with. */
  function Sign(secret: SecretKind, claims: Claims, now: int): (t: Token)
    ensures Verify(t, secret) == Success(t) && t.claims == claims && t.iat == now
    ensures forall other :: other != secret ==> Verify(t, other) == Failure(TokenRejected)
  {
    Token(secret, claims, now)
  }

  /** `jwt.verify(token, secret)`: the decoded token, or the exception. */
  function Verify(t: Token, secret: SecretKind): (r: Result<Token>)
    ensures r.Success? <==> t.secret == secret
    ensures r.Success? ==> r.value == t
    ensures r.Failure? ==> r.error == TokenRejected
  {
    if t.secret == secret then Success(t) else Failure(TokenRejected)
  }

  /** `decoded.email`; the `{ userId, role }` shape has no `email` claim. */
  function EmailClaim(c: Claims): (r: Option<Email>)
    ensures r.None? <==> c.Subject?
    ensures c.Identity? || c.EmailOnly? || c.OtpChallenge? ==> r == Some(c.email)
  {
    match c
    case Identity(_, email, _) => Some(email)
    case EmailOnly(email) => Some(email)
    case OtpChallenge(email, _, _) => Some(email)
    case Subject(_, _) => None
  }

  /** The email a flow recovers from `t` when it verifies with `secret`; a
      token without an email claim is rejected. */
  function DecodeEmail(t: Token, secret: SecretKind): (r: Result<Email>)
    ensures r.Success? <==> t.secret == secret && !t.claims.Subject?
    ensures r.Success? ==> EmailClaim(t.claims) == Some(r.value)
    ensures r.Failure? ==> r.error == TokenRejected
  {
    match Verify(t, secret)
    case Failure(e) => Failure(e)
    case Success(decoded) =>
      match EmailClaim(decoded.claims)
      case None => Failure(TokenRejected)
      case Some(email) => Success(email)
  }
}
