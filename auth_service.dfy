/** The authentication service over a mutable user collection. Each method
    runs its flow's guard chain step by step and writes the record in place,
    as `findOneAndUpdate`/`findByIdAndUpdate` do; its contract ties the
    result and the new collection to the flow function of module AuthFlows,
    about which module AuthProperties proves what the service promises. */
module AuthService {
  import opened Base
  import opened Crypto
  import opened Tokens
  import opened Users
  import AuthFlows

  class UserStore {
    var users: Store

    ghost predicate Valid()
      reads this
    {
      WellFormed(users)
    }

    constructor (initial: Store)
      requires WellFormed(initial)
      ensures Valid() && users == initial
    {
      users := initial;
    }

    method LoginUser(email: Email, password: string, fcmToken: string, now: int) returns (r: Result<AuthFlows.LoginResult>)
      requires Valid()
      modifies this
      ensures Valid()
      ensures AuthFlows.Step(r, users) == AuthFlows.LoginUser(old(users), email, password, fcmToken, now)
    {
      var found := ExistsByEmail(users, email);
      if found.Failure? {
        return Failure(found.error);
      }
      var user := found.value;
      if !Compare(password, user.passwordHash) {
        return Failure(AppError(Forbidden, PasswordMismatch));
      }
      var updated := user;
      if fcmToken != "" {
        updated := user.(fcmToken := fcmToken);
        UpdateKeepsWellFormed(users, email, updated);
        users := users[email := updated];
      }
      var claims := Identity(updated.id, updated.email, updated.role);
      r := Success(AuthFlows.LoginResult(Sign(Access, claims, now), Sign(Refresh, claims, now), updated));
    }

    method SendOtpForVerifyEmail(email: Email, otp: string, now: int) returns (r: Result<Token>)
      requires Valid()
      modifies this
      ensures Valid()
      ensures AuthFlows.Step(r, users) == AuthFlows.SendOtpForVerifyEmail(old(users), email, otp, now)
    {
      var verifyEmailToken := Sign(PasswordReset, EmailOnly(email), now);
      if email in users {
        var updated := users[email].(otpHash := Hash(otp));
        UpdateKeepsWellFormed(users, email, updated);
        users := users[email := updated];
      }
      r := Success(verifyEmailToken);
    }

    method VerifyUser(otp: string, token: Token) returns (r: Result<bool>)
      requires Valid()
      modifies this
      ensures Valid()
      ensures AuthFlows.Step(r, users) == AuthFlows.VerifyUser(old(users), otp, token)
    {
      var decoded := DecodeEmail(token, PasswordReset);
      if decoded.Failure? {
        return Failure(decoded.error);
      }
      var email := decoded.value;
      if email !in users {
        return Failure(AppError(NotFound, UserNotFound));
      }
      var user := users[email];
      if user.verified {
        return Failure(AppError(Forbidden, AlreadyVerified));
      }
      if user.otpHash == "" {
        return Failure(AppError(BadRequest, OtpNotFound));
      }
      if user.isDeleted {
        return Failure(AppError(Forbidden, UserDeleted));
      }
      if user.status == Blocked {
        return Failure(AppError(Forbidden, UserBlocked));
      }
      if !Compare(otp, user.otpHash) {
        return Failure(AppError(BadRequest, OtpMismatch));
      }
      var updated := user.(verified := true, otpHash := "");
      UpdateKeepsWellFormed(users, email, updated);
      users := users[email := updated];
      r := Success(true);
    }

    method ForgotPasswordLink(email: Email, now: int) returns (r: Result<Token>)
      requires Valid()
      modifies this
      ensures Valid()
      ensures AuthFlows.Step(r, users) == AuthFlows.ForgotPasswordLink(old(users), email, now)
    {
      var found := ExistsByEmail(users, email);
      if found.Failure? {
        return Failure(found.error);
      }
      var user := found.value;
      var resetToken := Sign(ForgotPass, EmailOnly(user.email), now);
      var updated := user.(otpHash := AuthFlows.OTP_PLACEHOLDER);
      UpdateKeepsWellFormed(users, email, updated);
      users := users[email := updated];
      r := Success(resetToken);
    }

    method ForgotPassword(email: Email, otp: string, now: int) returns (r: Result<Token>)
      requires Valid()
      modifies this
      ensures Valid()
      ensures AuthFlows.Step(r, users) == AuthFlows.ForgotPassword(old(users), email, otp, now)
    {
      var found := ExistsByEmail(users, email);
      if found.Failure? {
        return Failure(found.error);
      }
      var user := found.value;
      var hashed := Hash(otp);
      var forgetToken := Sign(ForgotPass, OtpChallenge(user.email, user.role, hashed), now);
      var updated := user.(otpHash := hashed);
      UpdateKeepsWellFormed(users, email, updated);
      users := users[email := updated];
      r := Success(forgetToken);
    }

    method VerifyOtp(otp: string, token: Token, now: int) returns (r: Result<Token>)
      requires Valid()
      modifies this
      ensures Valid()
      ensures AuthFlows.Step(r, users) == AuthFlows.VerifyOtp(old(users), otp, token, now)
    {
      var decoded := DecodeEmail(token, ForgotPass);
      if decoded.Failure? {
        return Failure(decoded.error);
      }
      var email := decoded.value;
      if email !in users {
        return Failure(AppError(NotFound, UserNotFound));
      }
      var user := users[email];
      if !user.verified {
        return Failure(AppError(Forbidden, NotVerified));
      }
      if user.isDeleted {
        return Failure(AppError(Forbidden, UserDeleted));
      }
      if user.status == Blocked {
        return Failure(AppError(Forbidden, UserBlocked));
      }
      if user.otpHash == "" {
        return Failure(AppError(BadRequest, OtpNotFound));
      }
      if !Compare(otp, user.otpHash) {
        return Failure(AppError(BadRequest, OtpMismatch));
      }
      var resetToken := Sign(PasswordReset, EmailOnly(user.email), now);
      var updated := user.(otpHash := "");
      UpdateKeepsWellFormed(users, email, updated);
      users := users[email := updated];
      r := Success(resetToken);
    }

    method ResetPassword(newPassword: string, confirmPassword: string, token: Token, now: int)
      returns (r: Result<UserRecord>)
      requires Valid()
      modifies this
      ensures Valid()
      ensures AuthFlows.Step(r, users) == AuthFlows.ResetPassword(old(users), newPassword, confirmPassword, token, now)
    {
      var decoded := DecodeEmail(token, PasswordReset);
      if decoded.Failure? {
        return Failure(decoded.error);
      }
      var email := decoded.value;
      var found := ExistsByEmail(users, email);
      if found.Failure? {
        return Failure(found.error);
      }
      var user := found.value;
      if user.passwordChangedAt.Some? && IssuedBeforePasswordChanged(user.passwordChangedAt.value, token.iat) {
        return Failure(AppError(Unauthorized, StaleToken));
      }
      if confirmPassword != newPassword {
        return Failure(AppError(BadRequest, ConfirmMismatch));
      }
      var updated := user.(passwordHash := Hash(newPassword), otpHash := "", passwordChangedAt := Some(now));
      UpdateKeepsWellFormed(users, email, updated);
      users := users[email := updated];
      r := Success(updated);
    }

    method ChangePassword(email: Email, oldPassword: string, newPassword: string, confirmPassword: string, now: int)
      returns (r: Result<()>)
      requires Valid()
      modifies this
      ensures Valid()
      ensures AuthFlows.Step(r, users) ==
                AuthFlows.ChangePassword(old(users), email, oldPassword, newPassword, confirmPassword, now)
    {
      var found := ExistsByEmail(users, email);
      if found.Failure? {
        return Failure(found.error);
      }
      var user := found.value;
      if !Compare(oldPassword, user.passwordHash) {
        return Failure(AppError(Forbidden, PasswordMismatch));
      }
      if newPassword != confirmPassword {
        return Failure(AppError(Forbidden, ConfirmMismatch));
      }
      var updated := user.(passwordHash := Hash(newPassword), passwordChangedAt := Some(now));
      UpdateKeepsWellFormed(users, email, updated);
      users := users[email := updated];
      r := Success(());
    }

    /** Reads the collection and writes nothing. */
    method RefreshToken(token: Token, now: int) returns (r: Result<Token>)
      ensures r == AuthFlows.RefreshToken(users, token, now)
    {
      var decoded := DecodeEmail(token, Refresh);
      if decoded.Failure? {
        return Failure(decoded.error);
      }
      var found := ExistsByEmail(users, decoded.value);
      if found.Failure? {
        return Failure(found.error);
      }
      var user := found.value;
      if user.passwordChangedAt.Some? && IssuedBeforePasswordChanged(user.passwordChangedAt.value, token.iat) {
        return Failure(AppError(Unauthorized, StaleToken));
      }
      r := Success(Sign(Access, Subject(user.email, user.role), now));
    }

    method DeleteMe(id: UserId) returns (r: Result<()>)
      requires Valid()
      modifies this
      ensures Valid()
      ensures AuthFlows.Step(r, users) == AuthFlows.DeleteMe(old(users), id)
    {
      if !exists e :: e in users && users[e].id == id {
        return Failure(AppError(NotFound, UserNotFound));
      }
      var email :| email in users && users[email].id == id;
      var user := users[email];
      if user.isDeleted {
        return Failure(AppError(Forbidden, UserDeleted));
      }
      if user.status == Blocked {
        return Failure(AppError(Forbidden, UserBlocked));
      }
      var updated := user.(isDeleted := true);
      UpdateKeepsWellFormed(users, email, updated);
      users := users[email := updated];
      r := Success(());
    }
  }
}
