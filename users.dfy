/** The user credential record and the lookups of the user model that the
    flows call (`isUserExistByEmail`, `isUserExistById`,
    `isJWTIssuedBeforePasswordChanged`). The user model itself is not part
    of this model; these helpers follow its documented contract. */
module Users {
  import opened Base

  datatype AccountStatus = Active | Blocked

  /** The fields of a user document the credential flows read or write.
      `otpHash` is `verification.otp`; `""` means no challenge is stored,
      and `fcmToken` is `""` when no device token was ever recorded. */
  datatype UserRecord = UserRecord(
    id: UserId,
    email: Email,
    passwordHash: string,
    role: Role,
    status: AccountStatus,
    isDeleted: bool,
    passwordChangedAt: Option<int>,
    verified: bool,
    otpHash: string,
    fcmToken: string)

  /** The user collection, indexed by the unique email. */
  type Store = map<Email, UserRecord>

  /** Every record is filed under its own email and ids are unique. */
  ghost predicate WellFormed(users: Store)
  {
    && (forall e :: e in users ==> users[e].email == e)
    && (forall e1, e2 :: e1 in users && e2 in users && users[e1].id == users[e2].id ==> e1 == e2)
  }

  /** Neither soft-deleted nor blocked. */
  predicate Eligible(u: UserRecord)
  {
    !u.isDeleted && u.status == Active
  }

  /** `isUserExistByEmail`: the record, or NotFound when absent and Forbidden
      when it is deleted or blocked (deleted is checked first). */
  function ExistsByEmail(users: Store, email: Email): (r: Result<UserRecord>)
    ensures r.Success? <==> email in users && Eligible(users[email])
    ensures r.Success? ==> r.value == users[email]
    ensures r.Failure? ==> r.error.AppError?
    ensures r.Failure? ==> (r.error.status == NotFound <==> email !in users)
    ensures r.Failure? && email in users ==> r.error.status == Forbidden
  {
    if email !in users then Failure(AppError(NotFound, UserNotFound))
    else if users[email].isDeleted then Failure(AppError(Forbidden, UserDeleted))
    else if users[email].status == Blocked then Failure(AppError(Forbidden, UserBlocked))
    else Success(users[email])
  }

  /** The email under which the record with `id` is filed, if any. */
  ghost function EmailOfId(users: Store, id: UserId): (r: Option<Email>)
    requires WellFormed(users)
    ensures r.Some? ==> r.value in users && users[r.value].id == id
    ensures r.None? <==> forall e :: e in users ==> users[e].id != id
  {
    if exists e :: e in users && users[e].id == id then
      var e :| e in users && users[e].id == id; Some(e)
    else None
  }

  /** `isUserExistById`: the same eligibility contract as `ExistsByEmail`,
      reached through the id. */
  ghost function ExistsById(users: Store, id: UserId): (r: Result<UserRecord>)
    requires WellFormed(users)
    ensures r.Success? <==> exists e :: e in users && users[e].id == id && Eligible(users[e])
    ensures r.Success? ==> r.value.email in users && users[r.value.email] == r.value && r.value.id == id
    ensures r.Failure? ==> r.error.AppError?
    ensures r.Failure? ==> (r.error.status == NotFound <==> forall e :: e in users ==> users[e].id != id)
    ensures r.Failure? && (exists e :: e in users && users[e].id == id) ==> r.error.status == Forbidden
  {
    match EmailOfId(users, id)
    case None => Failure(AppError(NotFound, UserNotFound))
    case Some(e) => ExistsByEmail(users, e)
  }

  /** `isJWTIssuedBeforePasswordChanged`: the password was changed strictly
      after the token was issued; a token issued at the same instant passes. */
  predicate IssuedBeforePasswordChanged(passwordChangedAt: int, iat: int): (b: bool)
    ensures b <==> iat < passwordChangedAt
    ensures iat == passwordChangedAt ==> !b
  {
    passwordChangedAt > iat
  }

  /** The invalidation watermark rejects a token issued at `iat`. A record
      whose password never changed rejects nothing, and a rejected issue
      time rejects every earlier one. */
  predicate Stale(u: UserRecord, iat: int): (b: bool)
    ensures u.passwordChangedAt.None? ==> !b
    ensures b ==> forall earlier :: earlier <= iat ==> IssuedBeforePasswordChanged(u.passwordChangedAt.value, earlier)
  {
    u.passwordChangedAt.Some? && IssuedBeforePasswordChanged(u.passwordChangedAt.value, iat)
  }

  /** Replacing a record by one with the same email and id keeps the store
      well formed. */
  lemma UpdateKeepsWellFormed(users: Store, e: Email, u: UserRecord)
    requires WellFormed(users) && e in users
    requires u.email == e && u.id == users[e].id
    ensures WellFormed(users[e := u])
  {
  }
}
