/** The ten flows of the authentication service, each a guard chain over one
    user record followed by at most one write to it. A flow is a function from
    the store before the request to its result and the store after it;
    `UserStore` in module AuthService runs the same chains in place.
    Randomness (`generateOTP`), the clock (`new Date()`, `iat`) and outgoing
    mail are parameters or left out. */
module AuthFlows {
  import opened Base
  import opened Crypto
  import opened Tokens
  import opened Users

  /** The outcome of one request and the store it leaves behind. */
  datatype Step<T> = Step(result: Result<T>, users: Store)

  datatype LoginResult = LoginResult(accessToken: Token, refreshToken: Token, user: UserRecord)

  /** The value `forgotPasswordLInk` writes into `verification.otp`. */
  const OTP_PLACEHOLDER: string := "123"

  /** A failed request: the error, and the store as it was. */
  function Fail<T>(users: Store, e: Error): (s: Step<T>)
    ensures s.result.Failure? && s.users == users
  {
    Step(Failure(e), users)
  }

  /** The token decodes, under `secret`, to a claim set naming `email`. */
  predicate Names(t: Token, secret: SecretKind, email: Email)
  {
    DecodeEmail(t, secret) == Success(email)
  }

  // ---------------------------------------------------------------- login

  /** `loginUser`: the eligibility lookup runs before the password is
      compared; on success the device token is stored when one was supplied
      and both tokens carry `{ id, email, role }` of the stored record. */
  function LoginUser(users: Store, email: Email, password: string, fcmToken: string, now: int): (s: Step<LoginResult>)
    ensures ExistsByEmail(users, email).Failure? ==> s == Fail(users, ExistsByEmail(users, email).error)
    ensures email in users && Eligible(users[email]) && !Compare(password, users[email].passwordHash) ==>
              s == Fail(users, AppError(Forbidden, PasswordMismatch))
    ensures s.result.Success? <==>
              email in users && Eligible(users[email]) && Compare(password, users[email].passwordHash)
    ensures s.result.Success? ==>
              var u := s.result.value.user;
              && u == (if fcmToken != "" then users[email].(fcmToken := fcmToken) else users[email])
              && s.users == users[email := u]
              && s.result.value.accessToken == Token(Access, Identity(u.id, u.email, u.role), now)
              && s.result.value.refreshToken == Token(Refresh, Identity(u.id, u.email, u.role), now)
  {
    match ExistsByEmail(users, email)
    case Failure(e) => Fail(users, e)
    case Success(user) =>
      if !Compare(password, user.passwordHash) then Fail(users, AppError(Forbidden, PasswordMismatch))
      else
        var updated := if fcmToken != "" then user.(fcmToken := fcmToken) else user;
        var claims := Identity(updated.id, updated.email, updated.role);
        var after := if fcmToken != "" then users[email := updated] else users;
        Step(Success(LoginResult(Sign(Access, claims, now), Sign(Refresh, claims, now), updated)), after)
  }

  // ---------------------------------------------------- email verification

  /** `sendOtpForVerifyEmail`: never fails; the new OTP's hash replaces any
      stored one (a no-op when no record has that email), and the returned
      token is signed with the password-reset secret and names the email. */
  function SendOtpForVerifyEmail(users: Store, email: Email, otp: string, now: int): (s: Step<Token>)
    ensures s.result == Success(Token(PasswordReset, EmailOnly(email), now))
    ensures s.users.Keys == users.Keys
    ensures email in users ==> s.users == users[email := users[email].(otpHash := Hash(otp))]
    ensures email !in users ==> s.users == users
  {
    var after := if email in users then users[email := users[email].(otpHash := Hash(otp))] else users;
    Step(Success(Sign(PasswordReset, EmailOnly(email), now)), after)
  }

  /** The guards of `verifyUser`, in the order the service runs them. */
  function VerifyUserGuard(users: Store, otp: string, t: Token): (r: Result<Email>)
    ensures DecodeEmail(t, PasswordReset).Failure? <==> r == Failure(TokenRejected)
    ensures r == Failure(AppError(NotFound, UserNotFound)) <==>
              exists e :: Names(t, PasswordReset, e) && e !in users
    ensures forall e :: Names(t, PasswordReset, e) && e in users ==>
              var u := users[e];
              && (r == Failure(AppError(Forbidden, AlreadyVerified)) <==> u.verified)
              && (r == Failure(AppError(BadRequest, OtpNotFound)) <==> !u.verified && u.otpHash == "")
              && (r == Failure(AppError(Forbidden, UserDeleted)) <==>
                    !u.verified && u.otpHash != "" && u.isDeleted)
              && (r == Failure(AppError(Forbidden, UserBlocked)) <==>
                    !u.verified && u.otpHash != "" && !u.isDeleted && u.status == Blocked)
              && (r == Failure(AppError(BadRequest, OtpMismatch)) <==>
                    !u.verified && u.otpHash != "" && Eligible(u) && !Compare(otp, u.otpHash))
    ensures r.Success? <==>
              exists e :: Names(t, PasswordReset, e) && e in users && !users[e].verified &&
                users[e].otpHash != "" && Eligible(users[e]) && Compare(otp, users[e].otpHash)
    ensures r.Success? ==> Names(t, PasswordReset, r.value)
  {
    match DecodeEmail(t, PasswordReset)
    case Failure(e) => Failure(e)
    case Success(email) =>
      if email !in users then Failure(AppError(NotFound, UserNotFound))
      else
        var u := users[email];
        if u.verified then Failure(AppError(Forbidden, AlreadyVerified))
        else if u.otpHash == "" then Failure(AppError(BadRequest, OtpNotFound))
        else if u.isDeleted then Failure(AppError(Forbidden, UserDeleted))
        else if u.status == Blocked then Failure(AppError(Forbidden, UserBlocked))
        else if !Compare(otp, u.otpHash) then Failure(AppError(BadRequest, OtpMismatch))
        else Success(email)
  }

  /** `verifyUser`: on success the record becomes verified with its OTP
      cleared and nothing else changes; on failure nothing changes. */
  function VerifyUser(users: Store, otp: string, t: Token): (s: Step<bool>)
    ensures s.result.Failure? ==> s.users == users && VerifyUserGuard(users, otp, t).Failure? && s.result.error == VerifyUserGuard(users, otp, t).error
    ensures s.result.Success? <==> VerifyUserGuard(users, otp, t).Success?
    ensures s.result.Success? ==>
              var e := VerifyUserGuard(users, otp, t).value;
              && s.result.value
              && s.users == users[e := users[e].(verified := true, otpHash := "")]
  {
    match VerifyUserGuard(users, otp, t)
    case Failure(e) => Fail(users, e)
    case Success(email) => Step(Success(true), users[email := users[email].(verified := true, otpHash := "")])
  }

  // ------------------------------------------------------- password reset

  /** `forgotPasswordLInk`: the directory lookup, then a token signed with
      the forgot-password secret naming the email, and the placeholder
      written where the OTP hash lives. */
  function ForgotPasswordLink(users: Store, email: Email, now: int): (s: Step<Token>)
    ensures ExistsByEmail(users, email).Failure? ==> s == Fail(users, ExistsByEmail(users, email).error)
    ensures s.result.Success? <==> ExistsByEmail(users, email).Success?
    ensures s.result.Success? ==>
              && s.result.value == Token(ForgotPass, EmailOnly(users[email].email), now)
              && s.users == users[email := users[email].(otpHash := OTP_PLACEHOLDER)]
  {
    match ExistsByEmail(users, email)
    case Failure(e) => Fail(users, e)
    case Success(user) =>
      Step(Success(Sign(ForgotPass, EmailOnly(user.email), now)), users[email := user.(otpHash := OTP_PLACEHOLDER)])
  }

  /** `forgotPassword`: the directory lookup, then the new OTP's hash is both
      stored on the record and embedded in the returned forgot-password
      token. */
  function ForgotPassword(users: Store, email: Email, otp: string, now: int): (s: Step<Token>)
    ensures ExistsByEmail(users, email).Failure? ==> s == Fail(users, ExistsByEmail(users, email).error)
    ensures s.result.Success? <==> ExistsByEmail(users, email).Success?
    ensures s.result.Success? ==>
              var u := users[email];
              && s.result.value == Token(ForgotPass, OtpChallenge(u.email, u.role, Hash(otp)), now)
              && s.users == users[email := u.(otpHash := Hash(otp))]
              && s.result.value.claims.otp == s.users[email].otpHash
  {
    match ExistsByEmail(users, email)
    case Failure(e) => Fail(users, e)
    case Success(user) =>
      var hashed := Hash(otp);
      Step(Success(Sign(ForgotPass, OtpChallenge(user.email, user.role, hashed), now)),
           users[email := user.(otpHash := hashed)])
  }

  /** The guards of `verifyOtp`, in the order the service runs them. */
  function VerifyOtpGuard(users: Store, otp: string, t: Token): (r: Result<Email>)
    ensures DecodeEmail(t, ForgotPass).Failure? <==> r == Failure(TokenRejected)
    ensures r == Failure(AppError(NotFound, UserNotFound)) <==>
              exists e :: Names(t, ForgotPass, e) && e !in users
    ensures forall e :: Names(t, ForgotPass, e) && e in users ==>
              var u := users[e];
              && (r == Failure(AppError(Forbidden, NotVerified)) <==> !u.verified)
              && (r == Failure(AppError(Forbidden, UserDeleted)) <==> u.verified && u.isDeleted)
              && (r == Failure(AppError(Forbidden, UserBlocked)) <==>
                    u.verified && !u.isDeleted && u.status == Blocked)
              && (r == Failure(AppError(BadRequest, OtpNotFound)) <==>
                    u.verified && Eligible(u) && u.otpHash == "")
              && (r == Failure(AppError(BadRequest, OtpMismatch)) <==>
                    u.verified && Eligible(u) && u.otpHash != "" && !Compare(otp, u.otpHash))
    ensures r.Success? <==>
              exists e :: Names(t, ForgotPass, e) && e in users && users[e].verified &&
                Eligible(users[e]) && users[e].otpHash != "" && Compare(otp, users[e].otpHash)
    ensures r.Success? ==> Names(t, ForgotPass, r.value)
  {
    match DecodeEmail(t, ForgotPass)
    case Failure(e) => Failure(e)
    case Success(email) =>
      if email !in users then Failure(AppError(NotFound, UserNotFound))
      else
        var u := users[email];
        if !u.verified then Failure(AppError(Forbidden, NotVerified))
        else if u.isDeleted then Failure(AppError(Forbidden, UserDeleted))
        else if u.status == Blocked then Failure(AppError(Forbidden, UserBlocked))
        else if u.otpHash == "" then Failure(AppError(BadRequest, OtpNotFound))
        else if !Compare(otp, u.otpHash) then Failure(AppError(BadRequest, OtpMismatch))
        else Success(email)
  }

  /** `verifyOtp`: on success the stored OTP is cleared and a fresh token,
      signed with the password-reset secret, names only the email. */
  function VerifyOtp(users: Store, otp: string, t: Token, now: int): (s: Step<Token>)
    ensures s.result.Failure? ==> s.users == users && VerifyOtpGuard(users, otp, t).Failure? && s.result.error == VerifyOtpGuard(users, otp, t).error
    ensures s.result.Success? <==> VerifyOtpGuard(users, otp, t).Success?
    ensures s.result.Success? ==>
              var e := VerifyOtpGuard(users, otp, t).value;
              && s.result.value == Token(PasswordReset, EmailOnly(users[e].email), now)
              && s.users == users[e := users[e].(otpHash := "")]
  {
    match VerifyOtpGuard(users, otp, t)
    case Failure(e) => Fail(users, e)
    case Success(email) =>
      var u := users[email];
      Step(Success(Sign(PasswordReset, EmailOnly(u.email), now)), users[email := u.(otpHash := "")])
  }

  /** The guards of `resetPassword`: the token, the directory lookup, the
      invalidation watermark, then the confirmation. */
  function ResetPasswordGuard(users: Store, newPassword: string, confirmPassword: string, t: Token): (r: Result<Email>)
    ensures DecodeEmail(t, PasswordReset).Failure? <==> r == Failure(TokenRejected)
    ensures forall e :: Names(t, PasswordReset, e) ==>
              && (ExistsByEmail(users, e).Failure? ==> r == Failure(ExistsByEmail(users, e).error))
              && (ExistsByEmail(users, e).Success? ==>
                    && (r == Failure(AppError(Unauthorized, StaleToken)) <==> Stale(users[e], t.iat))
                    && (r == Failure(AppError(BadRequest, ConfirmMismatch)) <==>
                          !Stale(users[e], t.iat) && newPassword != confirmPassword))
    ensures r.Success? <==>
              exists e :: Names(t, PasswordReset, e) && e in users && Eligible(users[e]) &&
                !Stale(users[e], t.iat) && newPassword == confirmPassword
    ensures r.Success? ==> Names(t, PasswordReset, r.value)
  {
    match DecodeEmail(t, PasswordReset)
    case Failure(e) => Failure(e)
    case Success(email) =>
      match ExistsByEmail(users, email)
      case Failure(e) => Failure(e)
      case Success(u) =>
        if Stale(u, t.iat) then Failure(AppError(Unauthorized, StaleToken))
        else if confirmPassword != newPassword then Failure(AppError(BadRequest, ConfirmMismatch))
        else Success(email)
  }

  /** `resetPassword`: on success the new password's hash is stored, the OTP
      is cleared and the watermark is stamped with `now`; the updated record
      is returned. */
  function ResetPassword(users: Store, newPassword: string, confirmPassword: string, t: Token, now: int): (s: Step<UserRecord>)
    ensures s.result.Failure? ==>
              s.users == users && ResetPasswordGuard(users, newPassword, confirmPassword, t).Failure? && s.result.error == ResetPasswordGuard(users, newPassword, confirmPassword, t).error
    ensures s.result.Success? <==> ResetPasswordGuard(users, newPassword, confirmPassword, t).Success?
    ensures s.result.Success? ==>
              var e := ResetPasswordGuard(users, newPassword, confirmPassword, t).value;
              && s.result.value == users[e].(passwordHash := Hash(newPassword), otpHash := "", passwordChangedAt := Some(now))
              && s.users == users[e := s.result.value]
  {
    match ResetPasswordGuard(users, newPassword, confirmPassword, t)
    case Failure(e) => Fail(users, e)
    case Success(email) =>
      var updated := users[email].(passwordHash := Hash(newPassword), otpHash := "", passwordChangedAt := Some(now));
      Step(Success(updated), users[email := updated])
  }

  // ------------------------------------------------------ change password

  /** `changePassword` for the already authenticated `email`: the directory
      lookup, the old password, then the confirmation; on success the new
      hash is stored and the watermark stamped with `now`. */
  function ChangePassword(users: Store, email: Email, oldPassword: string, newPassword: string,
                          confirmPassword: string, now: int): (s: Step<()>)
    ensures ExistsByEmail(users, email).Failure? ==> s == Fail(users, ExistsByEmail(users, email).error)
    ensures email in users && Eligible(users[email]) && !Compare(oldPassword, users[email].passwordHash) ==>
              s == Fail(users, AppError(Forbidden, PasswordMismatch))
    ensures email in users && Eligible(users[email]) && Compare(oldPassword, users[email].passwordHash) &&
            newPassword != confirmPassword ==>
              s == Fail(users, AppError(Forbidden, ConfirmMismatch))
    ensures s.result.Success? <==>
              && email in users && Eligible(users[email])
              && Compare(oldPassword, users[email].passwordHash) && newPassword == confirmPassword
    ensures s.result.Success? ==>
              s.users == users[email := users[email].(passwordHash := Hash(newPassword), passwordChangedAt := Some(now))]
  {
    match ExistsByEmail(users, email)
    case Failure(e) => Fail(users, e)
    case Success(user) =>
      if !Compare(oldPassword, user.passwordHash) then Fail(users, AppError(Forbidden, PasswordMismatch))
      else if newPassword != confirmPassword then Fail(users, AppError(Forbidden, ConfirmMismatch))
      else Step(Success(()), users[email := user.(passwordHash := Hash(newPassword), passwordChangedAt := Some(now))])
  }

  // -------------------------------------------------------- refresh token

  /** `refreshToken`: reads only. A refresh-secret token naming an eligible
      user whose watermark does not postdate it buys an access token with
      the claims `{ userId: email, role }`. */
  function RefreshToken(users: Store, t: Token, now: int): (r: Result<Token>)
    ensures DecodeEmail(t, Refresh).Failure? <==> r == Failure(TokenRejected)
    ensures forall e :: Names(t, Refresh, e) ==>
              && (ExistsByEmail(users, e).Failure? ==> r == Failure(ExistsByEmail(users, e).error))
              && (ExistsByEmail(users, e).Success? ==>
                    (r == Failure(AppError(Unauthorized, StaleToken)) <==> Stale(users[e], t.iat)))
    ensures r.Success? <==>
              exists e :: Names(t, Refresh, e) && e in users && Eligible(users[e]) && !Stale(users[e], t.iat)
    ensures r.Success? ==>
              forall e :: Names(t, Refresh, e) ==>
                r.value == Token(Access, Subject(users[e].email, users[e].role), now)
  {
    match DecodeEmail(t, Refresh)
    case Failure(e) => Failure(e)
    case Success(email) =>
      match ExistsByEmail(users, email)
      case Failure(e) => Failure(e)
      case Success(u) =>
        if Stale(u, t.iat) then Failure(AppError(Unauthorized, StaleToken))
        else Success(Sign(Access, Subject(u.email, u.role), now))
  }

  // ------------------------------------------------------------ delete me

  /** `deleteMe`: the lookup by id, then the soft-delete flag; the record
      stays in the store. */
  ghost function DeleteMe(users: Store, id: UserId): (s: Step<()>)
    requires WellFormed(users)
    ensures s.result.Failure? ==> s.users == users && ExistsById(users, id).Failure? && s.result.error == ExistsById(users, id).error
    ensures s.result.Success? <==> ExistsById(users, id).Success?
    ensures s.result.Success? ==>
              var e := ExistsById(users, id).value.email;
              && e in users && users[e].id == id
              && s.users == users[e := users[e].(isDeleted := true)]
  {
    match ExistsById(users, id)
    case Failure(e) => Fail(users, e)
    case Success(user) => Step(Success(()), users[user.email := user.(isDeleted := true)])
  }
}
