/** What the authentication flows promise across requests: the round trips
    of the verification and reset paths, one-shot OTPs, the invalidation
    watermark, and that deleted or blocked accounts never complete a flow. */
module AuthProperties {
  import opened Base
  import opened Crypto
  import opened Tokens
  import opened Users
  import opened AuthFlows

  // ---------------------------------------------------------------- login

  /** A wrong password is refused Forbidden after the eligibility lookup,
      and nothing is written, not even the device token. */
  lemma LoginWrongPassword(users: Store, email: Email, password: string, stored: string, fcmToken: string, now: int)
    requires email in users && Eligible(users[email])
    requires users[email].passwordHash == Hash(stored) && stored != password
    ensures LoginUser(users, email, password, fcmToken, now) == Fail(users, AppError(Forbidden, PasswordMismatch))
  {
    CompareHash(password, stored);
  }

  /** A refresh token from a successful login buys an access token exactly
      when no password change postdates the login; the new access token
      carries `{ userId: email, role }`, not the login claims. */
  lemma {:induction false} LoginThenRefresh(users: Store, email: Email, password: string, fcmToken: string, loginAt: int, now: int)
    requires WellFormed(users)
    requires LoginUser(users, email, password, fcmToken, loginAt).result.Success?
    ensures var s := LoginUser(users, email, password, fcmToken, loginAt);
            var r := RefreshToken(s.users, s.result.value.refreshToken, now);
            && (r.Success? <==> !Stale(users[email], loginAt))
            && (r.Success? ==> r.value == Token(Access, Subject(email, users[email].role), now))
            && (r.Success? ==> r.value.claims != s.result.value.accessToken.claims)
  {
    var s := LoginUser(users, email, password, fcmToken, loginAt);
    var u := s.result.value.user;
    assert u.email == email && s.users[email] == u;
    assert Names(s.result.value.refreshToken, Refresh, email);
  }

  // ---------------------------------------------------- email verification

  /** Issuing an OTP and confirming it with the returned token succeeds
      exactly when the record exists, is not yet verified, is eligible, and
      the code is the one just issued: the new hash overwrites every earlier
      one, so only the latest OTP verifies. */
  lemma {:induction false} VerifyEmailRoundTrip(users: Store, email: Email, otp: string, submitted: string, now: int)
    ensures var s1 := SendOtpForVerifyEmail(users, email, otp, now);
            var s2 := VerifyUser(s1.users, submitted, s1.result.value);
            s2.result.Success? <==>
              email in users && !users[email].verified && Eligible(users[email]) && submitted == otp
    ensures var s1 := SendOtpForVerifyEmail(users, email, otp, now);
            var s2 := VerifyUser(s1.users, submitted, s1.result.value);
            email in users && !users[email].verified && Eligible(users[email]) && submitted != otp ==>
              s2.result == Failure(AppError(BadRequest, OtpMismatch))
  {
    var s1 := SendOtpForVerifyEmail(users, email, otp, now);
    var t := s1.result.value;
    assert Names(t, PasswordReset, email);
    CompareHash(submitted, otp);
    if email in users {
      HashNonEmpty(otp);
      assert s1.users[email].otpHash == Hash(otp);
    }
  }

  /** Confirmation is one-shot: once it succeeded, repeating it with the same
      token fails Forbidden, whatever code is submitted. */
  lemma {:induction false} VerifyUserOneShot(users: Store, otp: string, again: string, t: Token)
    requires VerifyUser(users, otp, t).result.Success?
    ensures VerifyUser(VerifyUser(users, otp, t).users, again, t).result == Failure(AppError(Forbidden, AlreadyVerified))
  {
    var e := VerifyUserGuard(users, otp, t).value;
    assert Names(t, PasswordReset, e);
  }

  // ------------------------------------------------------- password reset

  /** The OTP path, end to end: requesting an OTP, confirming it, and
      resetting with the token `verifyOtp` returns succeeds for a verified,
      eligible account whose watermark does not postdate the confirmation;
      afterwards the new password logs in. */
  lemma {:induction false} OtpResetPath(users: Store, email: Email, otp: string, password: string,
                                        askedAt: int, confirmedAt: int, now: int)
    requires WellFormed(users)
    requires email in users && Eligible(users[email]) && users[email].verified
    requires !Stale(users[email], confirmedAt)
    ensures var s1 := ForgotPassword(users, email, otp, askedAt);
            var s2 := VerifyOtp(s1.users, otp, s1.result.value, confirmedAt);
            var s3 := ResetPassword(s2.users, password, password, s2.result.value, now);
            && s1.result.Success? && s2.result.Success? && s3.result.Success?
            && s3.users[email].passwordHash == Hash(password)
            && s3.users[email].otpHash == ""
            && s3.users[email].passwordChangedAt == Some(now)
            && LoginUser(s3.users, email, password, "", now).result.Success?
  {
    var s1 := ForgotPassword(users, email, otp, askedAt);
    assert Names(s1.result.value, ForgotPass, email);
    HashNonEmpty(otp);
    CompareHash(otp, otp);
    var s2 := VerifyOtp(s1.users, otp, s1.result.value, confirmedAt);
    assert VerifyOtpGuard(s1.users, otp, s1.result.value) == Success(email);
    assert Names(s2.result.value, PasswordReset, email);
    var s3 := ResetPassword(s2.users, password, password, s2.result.value, now);
    assert ResetPasswordGuard(s2.users, password, password, s2.result.value) == Success(email);
    CompareHash(password, password);
  }

  /** A reset OTP is one-shot: once `verifyOtp` succeeded, repeating it with
      the same token fails BadRequest "OTP not found", whatever is sent. */
  lemma {:induction false} VerifyOtpOneShot(users: Store, otp: string, again: string, t: Token, now: int, later: int)
    requires VerifyOtp(users, otp, t, now).result.Success?
    ensures VerifyOtp(VerifyOtp(users, otp, t, now).users, again, t, later).result == Failure(AppError(BadRequest, OtpNotFound))
  {
    var e := VerifyOtpGuard(users, otp, t).value;
    assert Names(t, ForgotPass, e);
  }

  /** After `forgotPassword` only the OTP just issued is accepted: any other
      code fails BadRequest, with nothing written. */
  lemma {:induction false} ForgotPasswordWrongOtp(users: Store, email: Email, otp: string, submitted: string,
                                                  now: int, confirmedAt: int)
    requires WellFormed(users)
    requires email in users && Eligible(users[email]) && users[email].verified
    requires submitted != otp
    ensures var s := ForgotPassword(users, email, otp, now);
            VerifyOtp(s.users, submitted, s.result.value, confirmedAt) == Fail(s.users, AppError(BadRequest, OtpMismatch))
  {
    var s := ForgotPassword(users, email, otp, now);
    assert Names(s.result.value, ForgotPass, email);
    HashNonEmpty(otp);
    CompareHash(submitted, otp);
  }

  /** The link path's token is signed with the forgot-password secret, which
      `resetPassword` does not verify against: it is rejected whatever the
      store holds. */
  lemma LinkTokenRejectedByReset(users: Store, email: Email, now: int, later: Store,
                                 newPassword: string, confirmPassword: string, resetAt: int)
    requires ForgotPasswordLink(users, email, now).result.Success?
    ensures ResetPassword(later, newPassword, confirmPassword, ForgotPasswordLink(users, email, now).result.value, resetAt).result
              == Failure(TokenRejected)
  {
  }

  /** The placeholder the link path stores is no hash, so confirming any OTP
      against it fails once the earlier guards pass. */
  lemma {:induction false} LinkPlaceholderMatchesNoOtp(users: Store, email: Email, otp: string, now: int, confirmedAt: int)
    requires WellFormed(users)
    requires email in users && Eligible(users[email]) && users[email].verified
    ensures var s := ForgotPasswordLink(users, email, now);
            VerifyOtp(s.users, otp, s.result.value, confirmedAt).result == Failure(AppError(BadRequest, OtpMismatch))
  {
    var s := ForgotPasswordLink(users, email, now);
    assert Names(s.result.value, ForgotPass, email);
    CompareNonHash(otp, OTP_PLACEHOLDER);
  }

  /** `verifyOtp` compares the code with the stored hash only, never with
      the token's `otp` claim: the reset-link token, sent together with the
      OTP of a later `forgotPassword`, passes the check. */
  lemma {:induction false} LinkTokenAcceptsLaterOtp(users: Store, email: Email, linkAt: int, otp: string,
                                                    askedAt: int, confirmedAt: int)
    requires WellFormed(users)
    requires email in users && Eligible(users[email]) && users[email].verified
    ensures var s1 := ForgotPasswordLink(users, email, linkAt);
            var s2 := ForgotPassword(s1.users, email, otp, askedAt);
            VerifyOtp(s2.users, otp, s1.result.value, confirmedAt).result.Success?
  {
    var s1 := ForgotPasswordLink(users, email, linkAt);
    assert Names(s1.result.value, ForgotPass, email);
    var s2 := ForgotPassword(s1.users, email, otp, askedAt);
    HashNonEmpty(otp);
    CompareHash(otp, otp);
    assert VerifyOtpGuard(s2.users, otp, s1.result.value) == Success(email);
  }

  /** The verify-email token is signed with the same password-reset secret
      that `resetPassword` verifies against, so the token returned by
      `sendOtpForVerifyEmail` for an eligible account resets its password. */
  lemma {:induction false} VerifyEmailTokenResetsPassword(users: Store, email: Email, otp: string, issuedAt: int,
                                                          password: string, now: int)
    requires email in users && Eligible(users[email]) && !Stale(users[email], issuedAt)
    ensures var s := SendOtpForVerifyEmail(users, email, otp, issuedAt);
            var r := ResetPassword(s.users, password, password, s.result.value, now);
            r.result.Success? && r.users[email].passwordHash == Hash(password)
  {
    var s := SendOtpForVerifyEmail(users, email, otp, issuedAt);
    assert Names(s.result.value, PasswordReset, email);
    assert ResetPasswordGuard(s.users, password, password, s.result.value) == Success(email);
  }

  /** A reset whose new password and confirmation differ is refused
      BadRequest and writes nothing. */
  lemma ResetConfirmMismatch(users: Store, newPassword: string, confirmPassword: string, t: Token, email: Email, now: int)
    requires Names(t, PasswordReset, email) && email in users && Eligible(users[email]) && !Stale(users[email], t.iat)
    requires newPassword != confirmPassword
    ensures ResetPassword(users, newPassword, confirmPassword, t, now) == Fail(users, AppError(BadRequest, ConfirmMismatch))
  {
  }

  // ---------------------------------------------------------- watermark

  /** A token issued before the last password change is refused Unauthorized
      by both `resetPassword` and `refreshToken`, and nothing is written. */
  lemma StaleTokenRefused(users: Store, t: Token, email: Email, newPassword: string, confirmPassword: string, now: int)
    requires email in users && Eligible(users[email]) && Stale(users[email], t.iat)
    ensures Names(t, PasswordReset, email) ==>
              ResetPassword(users, newPassword, confirmPassword, t, now) == Fail(users, AppError(Unauthorized, StaleToken))
    ensures Names(t, Refresh, email) ==> RefreshToken(users, t, now) == Failure(AppError(Unauthorized, StaleToken))
  {
  }

  /** After a successful reset at `now`, every token for that account issued
      earlier than `now` is stale, including the reset token itself when it
      was issued before `now`. */
  lemma {:induction false} ResetInvalidatesEarlierTokens(users: Store, newPassword: string, t: Token, now: int,
                                                         earlier: Token, email: Email, later: int)
    requires ResetPassword(users, newPassword, newPassword, t, now).result.Success?
    requires Names(t, PasswordReset, email)
    requires earlier.iat < now
    ensures var after := ResetPassword(users, newPassword, newPassword, t, now).users;
            && (Names(earlier, Refresh, email) ==>
                  RefreshToken(after, earlier, later) == Failure(AppError(Unauthorized, StaleToken)))
            && (Names(earlier, PasswordReset, email) ==>
                  ResetPassword(after, newPassword, newPassword, earlier, later).result
                    == Failure(AppError(Unauthorized, StaleToken)))
  {
    var e := ResetPasswordGuard(users, newPassword, newPassword, t).value;
    assert Names(t, PasswordReset, e);
    var after := ResetPassword(users, newPassword, newPassword, t, now).users;
    assert after[email].passwordChangedAt == Some(now) && Eligible(after[email]);
  }

  // ------------------------------------------------------ change password

  /** After a successful change the new password logs in, a different old
      one is refused, and refresh tokens issued before the change are
      stale. */
  lemma {:induction false} ChangePasswordThenLogin(users: Store, email: Email, oldPassword: string, newPassword: string,
                                                   now: int, other: string, refresh: Token, later: int)
    requires ChangePassword(users, email, oldPassword, newPassword, newPassword, now).result.Success?
    requires other != newPassword
    ensures var after := ChangePassword(users, email, oldPassword, newPassword, newPassword, now).users;
            && LoginUser(after, email, newPassword, "", later).result.Success?
            && LoginUser(after, email, other, "", later).result == Failure(AppError(Forbidden, PasswordMismatch))
            && (Names(refresh, Refresh, email) && refresh.iat < now ==>
                  RefreshToken(after, refresh, later) == Failure(AppError(Unauthorized, StaleToken)))
  {
    CompareHash(newPassword, newPassword);
    CompareHash(other, newPassword);
  }

  /** A mismatched confirmation is refused Forbidden with the record
      unchanged, even when the old password is right. */
  lemma ChangePasswordConfirmMismatch(users: Store, email: Email, oldPassword: string, newPassword: string,
                                      confirmPassword: string, now: int)
    requires email in users && Eligible(users[email]) && users[email].passwordHash == Hash(oldPassword)
    requires newPassword != confirmPassword
    ensures ChangePassword(users, email, oldPassword, newPassword, confirmPassword, now)
              == Fail(users, AppError(Forbidden, ConfirmMismatch))
  {
    CompareHash(oldPassword, oldPassword);
  }

  // ---------------------------------------------------------- eligibility

  /** A deleted or blocked account completes no login, verification, reset,
      password change or refresh, whatever token or code is presented. */
  lemma IneligibleNeverCompletes(users: Store, email: Email, secret: string, newSecret: string, t: Token, now: int)
    requires email in users && !Eligible(users[email])
    ensures !LoginUser(users, email, secret, newSecret, now).result.Success?
    ensures Names(t, PasswordReset, email) ==> !VerifyUser(users, secret, t).result.Success?
    ensures Names(t, ForgotPass, email) ==> !VerifyOtp(users, secret, t, now).result.Success?
    ensures Names(t, PasswordReset, email) ==> !ResetPassword(users, newSecret, newSecret, t, now).result.Success?
    ensures !ChangePassword(users, email, secret, newSecret, newSecret, now).result.Success?
    ensures Names(t, Refresh, email) ==> !RefreshToken(users, t, now).Success?
    ensures !ForgotPassword(users, email, secret, now).result.Success?
    ensures !ForgotPasswordLink(users, email, now).result.Success?
  {
  }

  /** Soft delete keeps the record, marks it deleted, is refused Forbidden
      the second time, and locks the account out of login. */
  lemma {:induction false} DeleteMeNotRepeatable(users: Store, id: UserId, password: string, now: int)
    requires WellFormed(users)
    requires DeleteMe(users, id).result.Success?
    ensures var after := DeleteMe(users, id).users;
            var e := ExistsById(users, id).value.email;
            && after.Keys == users.Keys
            && after[e].isDeleted
            && WellFormed(after)
            && DeleteMe(after, id).result == Failure(AppError(Forbidden, UserDeleted))
            && LoginUser(after, e, password, "", now).result == Failure(AppError(Forbidden, UserDeleted))
  {
    var e := ExistsById(users, id).value.email;
    var after := DeleteMe(users, id).users;
    UpdateKeepsWellFormed(users, e, users[e].(isDeleted := true));
    assert e in after && after[e].id == id;
    assert EmailOfId(after, id) == Some(e);
  }
}
