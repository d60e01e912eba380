/** Every run of the service: requests, each one transaction, interleaved with the passing of time and
    with what an administrator may do to accounts and rows; and the history such a run leaves. */
module Machine {
  import opened Types
  import opened Jwt
  import opened Requests

  datatype Label =
    | LoginCall(email: string, password: string, times: IssueTimes, jti: Jti, fault: Option<nat>)
    | RefreshCall(raw: RawToken, at: RefreshTimes, jti: Jti, fault: Option<nat>)
    | RegisterCall(id: UserId, email: string, password: string, fullName: Option<string>, fault: Option<nat>)
    | SeedCall(fixtures: seq<Fixture>, ids: seq<UserId>, fault: Option<nat>)
    | Wait(until: Instant)
    | SetActive(id: UserId, active: bool)
    | DeleteUser(id: UserId)
    | DeleteRow(hash: JtiHash)

  datatype Reply = Tokens(pair: TokenPair) | Account(id: UserId) | Seeded(created: int, skipped: int) | Silent

  /** One refresh token handed out: its claims, when its row expires, the token it was rotated from
      (None after a login) and how many tokens were handed out before it. */
  datatype Grant = Grant(claims: Claims, rowExpiry: Instant, parent: Option<Jti>, serial: nat)

  /** What has happened: the tokens handed out, which one each exchanged token was exchanged for, those
      whose row an administrator removed, every identifier drawn, and the number of logins. */
  datatype History = History(
    grants: map<Jti, Grant>, successor: map<Jti, Jti>, dropped: set<Jti>, drawn: set<Jti>, logins: nat)

  datatype World = World(now: Instant, sys: Sys, hist: History)

  // ---- one step ------------------------------------------------------------------------------------

  predicate Enabled(w: World, l: Label) {
    match l
    case LoginCall(_, _, t, jti, _) => w.now <= t.access && t.Ordered() && jti !in w.hist.drawn
    case RefreshCall(_, t, jti, _) => w.now <= t.decode && t.Ordered() && jti !in w.hist.drawn
    case SeedCall(fixtures, ids, _) => |ids| == |fixtures|
    case Wait(until) => w.now <= until
    case _ => true
  }

  function UserRows(tokens: map<JtiHash, Row>, id: UserId): set<JtiHash> {
    set h | h in tokens && tokens[h].userId == id
  }

  function TokensReply(r: Result<TokenPair>): Result<Reply> {
    match r
    case Ok(pair) => Ok(Tokens(pair))
    case Refused(e) => Refused(e)
    case Crashed => Crashed
  }

  function AccountReply(r: Result<UserId>): Result<Reply> {
    match r
    case Ok(id) => Ok(Account(id))
    case Refused(e) => Refused(e)
    case Crashed => Crashed
  }

  function SeedReply(r: Result<(int, int)>): Result<Reply> {
    match r
    case Ok(report) => Ok(Seeded(report.0, report.1))
    case Refused(e) => Refused(e)
    case Crashed => Crashed
  }

  function Respond(cfg: Config, s: Sys, l: Label): (Sys, Result<Reply>)
    requires l.SeedCall? ==> |l.ids| == |l.fixtures|
  {
    match l
    case LoginCall(email, password, t, jti, fault) =>
      var (s', r) := ServeLogin(cfg, s, email, password, t, jti, fault);
      (s', TokensReply(r))
    case RefreshCall(raw, t, jti, fault) =>
      var (s', r) := ServeRefresh(cfg, s, raw, t, jti, fault);
      (s', TokensReply(r))
    case RegisterCall(id, email, password, fullName, fault) =>
      var (s', r) := ServeRegister(cfg, s, id, email, password, fullName, fault);
      (s', AccountReply(r))
    case SeedCall(fixtures, ids, fault) =>
      var (s', r) := ServeSeed(cfg, s, fixtures, ids, fault);
      (s', SeedReply(r))
    case Wait(_) => (s, Ok(Silent))
    case SetActive(id, active) =>
      if id in s.store.users
      then (s.(store := s.store.(users := s.store.users[id := s.store.users[id].(active := active)])), Ok(Silent))
      else (s, Ok(Silent))
    case DeleteUser(id) =>
      (s.(store := Store(s.store.users - {id}, s.store.tokens - UserRows(s.store.tokens, id))), Ok(Silent))
    case DeleteRow(h) =>
      (s.(store := s.store.(tokens := s.store.tokens - {h})), Ok(Silent))
  }

  function After(w: World, l: Label): Instant {
    match l
    case LoginCall(_, _, t, _, _) => t.row
    case RefreshCall(_, t, _, _) => t.issue.row
    case Wait(until) => until
    case _ => w.now
  }

  function Handed(cfg: Config, h: History, pair: TokenPair, t: IssueTimes, jti: Jti, parent: Option<Jti>): History
    requires pair.refresh.Encoded?
  {
    h.(grants := h.grants[jti := Grant(pair.refresh.claims, t.row + cfg.RefreshLifetime(), parent, |h.grants|)])
  }

  function Record(cfg: Config, w: World, l: Label): History
    requires Enabled(w, l)
  {
    match l
    case LoginCall(email, password, t, jti, fault) =>
      var h := w.hist.(drawn := w.hist.drawn + {jti});
      var r := ServeLogin(cfg, w.sys, email, password, t, jti, fault).1;
      if r.Ok? then Handed(cfg, h, r.value, t, jti, None).(logins := h.logins + 1) else h
    case RefreshCall(raw, t, jti, fault) =>
      var h := w.hist.(drawn := w.hist.drawn + {jti});
      var r := ServeRefresh(cfg, w.sys, raw, t, jti, fault).1;
      if r.Ok? then
        Handed(cfg, h, r.value, t.issue, jti, raw.claims.jti).(successor := h.successor[raw.claims.jti.value := jti])
      else h
    case DeleteUser(id) =>
      w.hist.(dropped := w.hist.dropped + set h | h in UserRows(w.sys.store.tokens, id) :: h.jti)
    case DeleteRow(h) =>
      if h in w.sys.store.tokens then w.hist.(dropped := w.hist.dropped + {h.jti}) else w.hist
    case _ => w.hist
  }

  function Next(cfg: Config, w: World, l: Label): World
    requires Enabled(w, l)
  {
    World(After(w, l), Respond(cfg, w.sys, l).0, Record(cfg, w, l))
  }

  // ---- runs ----------------------------------------------------------------------------------------

  /** A service that has handed out no token yet, with any accounts. */
  ghost predicate Initial(w: World) {
    && w.sys.store.tokens == map[] && w.sys.signed == {} && w.sys.tally == Tally(0, 0, 0, 0, 0)
    && w.hist == History(map[], map[], {}, {}, 0)
  }

  predicate Legal(cfg: Config, w: World, run: seq<Label>)
    decreases |run|
  {
    run == [] || (Enabled(w, run[0]) && Legal(cfg, Next(cfg, w, run[0]), run[1..]))
  }

  function Run(cfg: Config, w: World, run: seq<Label>): World
    requires Legal(cfg, w, run)
    decreases |run|
  {
    if run == [] then w else Run(cfg, Next(cfg, w, run[0]), run[1..])
  }

  // ---- what every step keeps -----------------------------------------------------------------------

  /** Every signed claim names an account; refresh claims, and only they, carry a drawn `jti`, each its own. */
  ghost predicate SignedWell(w: World) {
    && (forall c :: c in w.sys.signed ==>
         c.sub.Some? && (c.kind.Refresh? <==> c.jti.Some?) && (c.jti.Some? ==> c.jti.value in w.hist.drawn))
    && (forall c, d :: c in w.sys.signed && d in w.sys.signed && c.jti.Some? && c.jti == d.jti ==> c == d)
  }

  /** The JWT of a token handed out is signed and never outlives the row. */
  ghost predicate GrantsSigned(cfg: Config, w: World) {
    forall j :: j in w.hist.grants ==>
      var g := w.hist.grants[j];
      && g.claims in w.sys.signed && g.claims.jti == Some(j)
      && g.claims.exp <= g.rowExpiry <= w.now + cfg.RefreshLifetime()
      && g.serial < |w.hist.grants|
  }

  /** A stored row is the row of a token handed out, it belongs to the account in the JWT's `sub`, and
      it is revoked exactly when the token has been exchanged. */
  ghost predicate RowsGranted(w: World) {
    forall h :: h in w.sys.store.tokens ==>
      var row := w.sys.store.tokens[h];
      && h.jti in w.hist.grants && h.jti !in w.hist.dropped
      && w.hist.grants[h.jti].claims.sub == Some(row.userId) && row.userId in w.sys.store.users
      && w.hist.grants[h.jti].rowExpiry == row.expiresAt
      && (row.revokedAt.Some? <==> h.jti in w.hist.successor)
  }

  /** Only an administrator or its expiry removes the row of a token handed out. */
  ghost predicate LiveRowsKept(w: World) {
    forall j {:trigger Sha256(j)} ::
      j in w.hist.grants && j !in w.hist.dropped && w.now <= w.hist.grants[j].rowExpiry ==>
      Sha256(j) in w.sys.store.tokens
  }

  /** `successor` and `parent` are inverse, and a successor keeps the account and the later expiry. */
  ghost predicate Linked(h: History) {
    && (forall j {:trigger h.successor[j]} :: j in h.successor ==>
         j in h.grants && h.successor[j] in h.grants && h.grants[h.successor[j]].parent == Some(j))
    && (forall j {:trigger h.grants[j].parent} :: j in h.grants && h.grants[j].parent.Some? ==>
         var p := h.grants[j].parent.value;
         && p in h.successor && h.successor[p] == j && p in h.grants
         && h.grants[p].serial < h.grants[j].serial
         && h.grants[p].claims.sub == h.grants[j].claims.sub
         && h.grants[p].rowExpiry <= h.grants[j].rowExpiry)
  }

  function Roots(h: History): set<Jti> {
    set j | j in h.grants && h.grants[j].parent.None?
  }

  ghost predicate Bookkept(h: History) {
    h.grants.Keys <= h.drawn && h.dropped <= h.grants.Keys && |Roots(h)| == h.logins
  }

  ghost predicate Inv(cfg: Config, w: World) {
    && SignedWell(w) && GrantsSigned(cfg, w) && RowsGranted(w) && LiveRowsKept(w)
    && Linked(w.hist) && Bookkept(w.hist)
  }
}
