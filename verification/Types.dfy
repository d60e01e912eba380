/** The entities of the users module and the values its requests exchange. */
module Types {

  datatype Option<+T> = None | Some(value: T)

  /** The `AppError` subclasses the auth routes raise. */
  datatype AppError =
    | Unauthorized(message: string)
    | Conflict(message: string)
    | Forbidden(message: string)

  /** How a call ends: a value, an `AppError`, or any other exception (a lost connection, a constraint). */
  datatype Result<+T> = Ok(value: T) | Refused(error: AppError) | Crashed {
    predicate IsFailure() {
      !Ok?
    }

    function PropagateFailure<U>(): Result<U>
      requires IsFailure()
    {
      if Refused? then Refused(error) else Crashed
    }

    function Extract(): T
      requires Ok?
    {
      value
    }
  }

  /** Microseconds on one time line. */
  type Instant = int

  type UserId = nat

  type Jti = string

  /** SHA-256, assumed injective on the identifiers the service draws. */
  datatype JtiHash = Sha256(jti: Jti)

  /** Argon2, assumed to verify exactly the password that was hashed. */
  datatype PasswordHash = Argon2(password: string)

  datatype User = User(email: string, password: PasswordHash, fullName: Option<string>, active: bool, superuser: bool)

  /** One row of `refresh_tokens`; the unique `jti_hash` is the key it is stored under. */
  datatype Row = Row(userId: UserId, expiresAt: Instant, revokedAt: Option<Instant>)

  datatype Store = Store(users: map<UserId, User>, tokens: map<JtiHash, Row>)

  datatype Kind = Access | Refresh

  /** `sub` is None when the claim is missing or does not parse as a UUID. */
  datatype Claims = Claims(sub: Option<UserId>, kind: Kind, iat: Instant, exp: Instant, jti: Option<Jti>)

  /** What a caller presents: text that is no JWT, or a JWT over some claims, signed by anyone. */
  datatype RawToken = Garbage | Encoded(claims: Claims)

  datatype TokenPair = TokenPair(access: RawToken, refresh: RawToken, expiresIn: int)

  /** The business counters of the users module. */
  datatype Tally = Tally(
    registrations: nat, authSuccess: nat, authFailure: nat, refreshSuccess: nat, refreshFailure: nat)

  /** An email is looked up by comparing what the database's `lower` makes of the stored one, `dbFold`, with what
      Python's `lower` makes of the one given, `appFold`. `cleanup` is true in the service; with false,
      `cleanup_expired` deletes nothing. */
  datatype Config = Config(
    accessMinutes: int, refreshDays: int, dbFold: string -> string, appFold: string -> string, cleanup: bool)
  {
    function AccessLifetime(): int {
      accessMinutes * 60 * 1_000_000
    }

    function RefreshLifetime(): int {
      refreshDays * 86_400 * 1_000_000
    }
  }

  /** The clock readings of `IssueTokenPair.execute`, in the order it takes them. */
  datatype IssueTimes = IssueTimes(access: Instant, refresh: Instant, row: Instant) {
    predicate Ordered() {
      access <= refresh <= row
    }
  }

  /** The clock readings of `RefreshAccessToken.execute`, in the order it takes them. */
  datatype RefreshTimes = RefreshTimes(
    decode: Instant, check: Instant, revoke: Instant, cleanup: Instant, issue: IssueTimes)
  {
    predicate Ordered() {
      decode <= check <= revoke <= cleanup <= issue.access && issue.Ordered()
    }
  }

  /** Every reading of a refresh at one instant. */
  function AtOnce(t: Instant): RefreshTimes {
    RefreshTimes(t, t, t, t, IssueTimes(t, t, t))
  }
}
