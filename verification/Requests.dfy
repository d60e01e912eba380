/** What each request of the auth routes does to the committed store, the set of signed claims and the
    counters, as functions of the clock readings, the identifier drawn and the database call that fails.
    `fault` is the number of the session's database call that raises, counting from zero. */
module Requests {
  import opened Types
  import opened Jwt

  // ---- the queries and writes of the repositories -------------------------------------------------

  datatype Match = NoMatch | One(id: UserId) | Many

  function Matches(cfg: Config, users: map<UserId, User>, email: string): set<UserId> {
    set id | id in users && cfg.dbFold(users[id].email) == cfg.appFold(email)
  }

  /** `stmt_by_email` and `scalar_one_or_none`. */
  function FindByEmail(cfg: Config, users: map<UserId, User>, email: string): Match {
    var found := Matches(cfg, users, email);
    if found == {} then NoMatch
    else if id :| id in found && found == {id} then One(id)
    else Many
  }

  function Revoked(tokens: map<JtiHash, Row>, h: JtiHash, at: Instant): map<JtiHash, Row>
    requires h in tokens
  {
    tokens[h := tokens[h].(revokedAt := Some(at))]
  }

  function Swept(cfg: Config, tokens: map<JtiHash, Row>, now: Instant): map<JtiHash, Row> {
    if cfg.cleanup then map h | h in tokens && tokens[h].expiresAt >= now :: tokens[h] else tokens
  }

  // ---- the use cases -------------------------------------------------------------------------------

  /** The three things a request changes. */
  datatype Sys = Sys(store: Store, signed: set<Claims>, tally: Tally)

  function NewRow(cfg: Config, user: UserId, t: IssueTimes): Row {
    Row(user, t.row + cfg.RefreshLifetime(), None)
  }

  function NewPair(cfg: Config, user: UserId, t: IssueTimes, jti: Jti): TokenPair {
    TokenPair(Encoded(AccessClaims(cfg, user, t.access)),
              Encoded(RefreshClaims(cfg, user, jti, t.refresh)),
              cfg.accessMinutes * 60)
  }

  /** `IssueTokenPair.execute`, whose insert is database call number `call`: the new store and signed claims. */
  function Issue(cfg: Config, store: Store, signed: set<Claims>, user: UserId, t: IssueTimes, jti: Jti,
                 fault: Option<nat>, call: nat): (Store, set<Claims>, Result<TokenPair>)
  {
    var pair := NewPair(cfg, user, t, jti);
    var signed' := signed + {pair.access.claims} + {pair.refresh.claims};
    if fault == Some(call) || Sha256(jti) in store.tokens || user !in store.users then
      (store, signed', Crashed)
    else
      (store.(tokens := store.tokens[Sha256(jti) := NewRow(cfg, user, t)]), signed', Ok(pair))
  }

  datatype Judgement = BadToken | NoRow | Outdated | BadSubject | NoAccount | Fit(claims: Claims, user: UserId)

  /** The guards of `RefreshAccessToken.execute`, in its order. */
  function Judge(s: Sys, raw: RawToken, t: RefreshTimes): Judgement {
    var payload := Decode(s.signed, raw, t.decode);
    if payload.None? || !payload.value.kind.Refresh? || payload.value.jti.None? then BadToken
    else
      var h := Sha256(payload.value.jti.value);
      if h !in s.store.tokens || s.store.tokens[h].revokedAt.Some? then NoRow
      else if s.store.tokens[h].expiresAt < t.check then Outdated
      else if payload.value.sub.None? then BadSubject
      else
        var user := payload.value.sub.value;
        if user !in s.store.users || !s.store.users[user].active then NoAccount
        else Fit(payload.value, user)
  }

  function RefusalMessage(j: Judgement): string {
    match j
    case BadToken => "Invalid refresh token."
    case NoRow => "Refresh token has been revoked."
    case Outdated => "Refresh token has expired."
    case BadSubject => "Invalid refresh token."
    case NoAccount => "Account is unavailable."
    case Fit(_, _) => ""
  }

  /** The number of database calls made before a refresh is refused for this reason. */
  function CallsBefore(j: Judgement): nat {
    match j
    case BadToken => 0
    case NoRow => 1
    case Outdated => 1
    case BadSubject => 1
    case NoAccount => 2
    case Fit(_, _) => 4
  }

  predicate Fails(fault: Option<nat>, calls: nat) {
    fault.Some? && fault.value < calls
  }

  /** `RefreshAccessToken.execute`: lookup, account, revoke and cleanup are calls 0 to 3, the insert is call 4.
      A request that raises leaves the store as it was. */
  function Rotate(
    cfg: Config, s: Sys, raw: RawToken, t: RefreshTimes, jti: Jti, fault: Option<nat>): (Sys, Result<TokenPair>)
  {
    var j := Judge(s, raw, t);
    if Fails(fault, CallsBefore(j)) then
      (s, Crashed)
    else if !j.Fit? then
      (s.(tally := s.tally.(refreshFailure := s.tally.refreshFailure + 1)), Refused(Unauthorized(RefusalMessage(j))))
    else
      var spent := Revoked(s.store.tokens, Sha256(j.claims.jti.value), t.revoke);
      var swept := s.store.(tokens := Swept(cfg, spent, t.cleanup));
      var (store, signed, r) := Issue(cfg, swept, s.signed, j.user, t.issue, jti, fault, 4);
      (Sys(if r.Ok? then store else s.store, signed, s.tally.(refreshSuccess := s.tally.refreshSuccess + 1)), r)
  }

  /** `AuthenticateUser.execute`, whose lookup is call 0. */
  function Authenticate(cfg: Config, users: map<UserId, User>, tally: Tally, email: string, password: string,
                        fault: Option<nat>): (Tally, Result<UserId>)
  {
    var m := FindByEmail(cfg, users, email);
    var failed := tally.(authFailure := tally.authFailure + 1);
    if fault == Some(0) || m.Many? then
      (tally, Crashed)
    else if m.NoMatch? || users[m.id].password != Argon2(password) then
      (failed, Refused(Unauthorized("Incorrect email or password.")))
    else if !users[m.id].active then
      (failed, Refused(Unauthorized("This account is inactive.")))
    else
      (tally.(authSuccess := tally.authSuccess + 1), Ok(m.id))
  }

  /** The unique email column and the primary key. */
  predicate UserClash(users: map<UserId, User>, id: UserId, email: string) {
    id in users || exists other :: other in users && users[other].email == email
  }

  function NewUser(email: string, password: string, fullName: Option<string>): User {
    User(email, Argon2(password), fullName, true, false)
  }

  /** `RegisterUser.execute`: the lookup is call 0, the insert call 1. */
  function Enroll(cfg: Config, users: map<UserId, User>, tally: Tally, id: UserId, email: string, password: string,
                  fullName: Option<string>, fault: Option<nat>): (map<UserId, User>, Tally, Result<UserId>)
  {
    var m := FindByEmail(cfg, users, email);
    if fault == Some(0) || m.Many? then
      (users, tally, Crashed)
    else if m.One? then
      (users, tally, Refused(Conflict("A user with this email already exists.")))
    else if fault == Some(1) || UserClash(users, id, email) then
      (users, tally, Crashed)
    else
      (users[id := NewUser(email, password, fullName)], tally.(registrations := tally.registrations + 1), Ok(id))
  }

  // ---- the unit of work ----------------------------------------------------------------------------

  /** `get_session`: the commit is database call number `call`; anything that raises rolls back to `before`. */
  function Committed<T>(before: Store, s: Sys, r: Result<T>, fault: Option<nat>, call: nat): (Sys, Result<T>) {
    if r.Ok? && fault == Some(call) then (s.(store := before), Crashed)
    else if r.Ok? then (s, r)
    else (s.(store := before), r)
  }

  function ServeRefresh(
    cfg: Config, s: Sys, raw: RawToken, t: RefreshTimes, jti: Jti, fault: Option<nat>): (Sys, Result<TokenPair>)
  {
    var (s', r) := Rotate(cfg, s, raw, t, jti, fault);
    Committed(s.store, s', r, fault, 5)
  }

  function ServeLogin(
    cfg: Config, s: Sys, email: string, password: string, t: IssueTimes, jti: Jti,
    fault: Option<nat>): (Sys, Result<TokenPair>)
  {
    var (tally, user) := Authenticate(cfg, s.store.users, s.tally, email, password, fault);
    if user.IsFailure() then (s.(tally := tally), user.PropagateFailure())
    else
      var (store, signed, r) := Issue(cfg, s.store, s.signed, user.value, t, jti, fault, 1);
      Committed(s.store, Sys(store, signed, tally), r, fault, 2)
  }

  function ServeRegister(cfg: Config, s: Sys, id: UserId, email: string, password: string, fullName: Option<string>,
                         fault: Option<nat>): (Sys, Result<UserId>)
  {
    var (users, tally, r) := Enroll(cfg, s.store.users, s.tally, id, email, password, fullName, fault);
    Committed(s.store, s.(store := s.store.(users := users), tally := tally), r, fault, 2)
  }

  // ---- the seed command ----------------------------------------------------------------------------

  /** One entry of `fixtures/users.json`. */
  datatype Fixture = Fixture(email: Option<string>, password: Option<string>, fullName: Option<string>)

  datatype Sown = Sown(users: map<UserId, User>, created: nat, calls: nat, whole: bool)

  /** One round of the create-if-absent loop of `seed`, after `calls` database calls. */
  function PlantOne(
    cfg: Config, users: map<UserId, User>, f: Fixture, id: UserId, fault: Option<nat>, calls: nat): Sown
  {
    if f.email.None? then Sown(users, 0, calls, false)
    else
      var m := FindByEmail(cfg, users, f.email.value);
      if fault == Some(calls) || m.Many? then Sown(users, 0, calls + 1, false)
      else if m.One? then Sown(users, 0, calls + 1, true)
      else if fault == Some(calls + 1) || UserClash(users, id, f.email.value) then Sown(users, 0, calls + 2, false)
      else Sown(users[id := FixtureUser(f)], 1, calls + 2, true)
  }

  /** The loop over the remaining fixtures, with the identifiers drawn for them. It stops short (not `whole`)
      where a round raises. */
  function Plant(cfg: Config, users: map<UserId, User>, fixtures: seq<Fixture>, ids: seq<UserId>,
                 fault: Option<nat>, calls: nat): Sown
    requires |ids| == |fixtures|
    decreases |fixtures|
  {
    if fixtures == [] then Sown(users, 0, calls, true)
    else
      var one := PlantOne(cfg, users, fixtures[0], ids[0], fault, calls);
      if !one.whole then one
      else
        var rest := Plant(cfg, one.users, fixtures[1..], ids[1..], fault, one.calls);
        rest.(created := one.created + rest.created)
  }

  function FixtureUser(f: Fixture): User
    requires f.email.Some?
  {
    NewUser(f.email.value, if f.password.Some? then f.password.value else "changeme", f.fullName)
  }

  /** The whole command: one session, and a report of accounts created and skipped. */
  function ServeSeed(
    cfg: Config, s: Sys, fixtures: seq<Fixture>, ids: seq<UserId>, fault: Option<nat>): (Sys, Result<(int, int)>)
    requires |ids| == |fixtures|
  {
    var sown := Plant(cfg, s.store.users, fixtures, ids, fault, 0);
    Committed(s.store, s.(store := s.store.(users := sown.users)),
              if sown.whole then Ok((sown.created, |fixtures| - sown.created)) else Crashed, fault, sown.calls)
  }

  /** The line the command prints, before it commits: none when the loop does not get through. */
  function Echoed(cfg: Config, s: Sys, fixtures: seq<Fixture>, ids: seq<UserId>, fault: Option<nat>): Option<(int, int)>
    requires |ids| == |fixtures|
  {
    var sown := Plant(cfg, s.store.users, fixtures, ids, fault, 0);
    if sown.whole then Some((sown.created, |fixtures| - sown.created)) else None
  }

  // ---- access-token acceptance ---------------------------------------------------------------------

  /** `get_current_user`, whose lookup is call 0. */
  function CurrentUser(s: Sys, raw: RawToken, now: Instant, fault: Option<nat>): Result<UserId> {
    var refusal := Refused(Unauthorized("Could not validate credentials."));
    var payload := Decode(s.signed, raw, now);
    if payload.None? || !payload.value.kind.Access? || payload.value.sub.None? then refusal
    else
      var user := payload.value.sub.value;
      if fault == Some(0) then Crashed
      else if user !in s.store.users || !s.store.users[user].active then refusal
      else Ok(user)
  }

  /** `require_superuser`. */
  function Superuser(s: Sys, raw: RawToken, now: Instant, fault: Option<nat>): Result<UserId> {
    var r := CurrentUser(s, raw, now, fault);
    if r.Ok? && !(r.value in s.store.users && s.store.users[r.value].superuser) then
      Refused(Forbidden("Staff privileges are required."))
    else r
  }
}
