/** The service as a bag of single-use capabilities: signed claims, rows, cleanup and sessions simulate a
    machine that knows only which refresh tokens are good and which accounts are active. */
module Capabilities {
  import opened Types
  import opened Jwt
  import opened Requests
  import opened Machine
  import opened Invariants
  import opened Acceptance

  // ---- the abstract machine ------------------------------------------------------------------------

  datatype Bag = Bag(now: Instant, caps: set<Claims>, active: map<UserId, bool>)

  datatype Event =
    | Elapse(until: Instant)
    | Mint(cap: Claims, until: Instant)
    | Swap(spent: Claims, cap: Claims, until: Instant)
    | Forget(jti: Jti)
    | Leave(id: UserId)
    | Accounts(active: map<UserId, bool>)

  function Alive(caps: set<Claims>, now: Instant): set<Claims> {
    set c | c in caps && now < c.exp
  }

  ghost predicate Entitled(b: Bag, sub: Option<UserId>) {
    sub.Some? && sub.value in b.active && b.active[sub.value]
  }

  ghost predicate NewIn(b: Bag, cap: Claims) {
    cap.jti.Some? && forall c :: c in b.caps ==> c.jti != cap.jti
  }

  /** When the abstract machine can take a step: a capability is minted for an active account, and
      swapped only if held, one for one, for the same active account. */
  ghost predicate Allowed(b: Bag, e: Event) {
    match e
    case Elapse(t) => b.now <= t
    case Mint(c, t) => b.now <= t && Entitled(b, c.sub) && NewIn(b, c)
    case Swap(spent, c, t) =>
      b.now <= t && spent in b.caps && Entitled(b, spent.sub) && c.sub == spent.sub && NewIn(b, c)
    case Accounts(active) => b.active.Keys <= active.Keys
    case _ => true
  }

  function Move(b: Bag, e: Event): Bag {
    match e
    case Elapse(t) => b.(now := t, caps := Alive(b.caps, t))
    case Mint(c, t) => b.(now := t, caps := Alive(b.caps + {c}, t))
    case Swap(spent, c, t) => b.(now := t, caps := Alive(b.caps - {spent} + {c}, t))
    case Forget(j) => b.(caps := set c | c in b.caps && c.jti != Some(j))
    case Leave(id) => b.(caps := (set c | c in b.caps && c.sub != Some(id)), active := b.active - {id})
    case Accounts(active) => b.(active := active)
  }

  // ---- the abstraction -----------------------------------------------------------------------------

  predicate Held(w: World, c: Claims) {
    && c.kind.Refresh? && c.jti.Some? && w.now < c.exp
    && Sha256(c.jti.value) in w.sys.store.tokens && w.sys.store.tokens[Sha256(c.jti.value)].revokedAt.None?
  }

  function Caps(w: World): set<Claims> {
    set c | c in w.sys.signed && Held(w, c)
  }

  function Actives(users: map<UserId, User>): map<UserId, bool> {
    map id | id in users :: users[id].active
  }

  function Abstract(w: World): Bag {
    Bag(w.now, Caps(w), Actives(w.sys.store.users))
  }

  /** What a step looks like from outside: told from the response alone, a refusal or failure is time passing. */
  ghost function Observe(cfg: Config, w: World, l: Label): Event
    requires Enabled(w, l)
  {
    var (s', r) := Respond(cfg, w.sys, l);
    match l
    case LoginCall(_, _, t, _, _) =>
      if r.Ok? && r.value.Tokens? && r.value.pair.refresh.Encoded? then Mint(r.value.pair.refresh.claims, t.row)
      else Elapse(t.row)
    case RefreshCall(raw, t, _, _) =>
      if r.Ok? && r.value.Tokens? && r.value.pair.refresh.Encoded? && raw.Encoded?
      then Swap(raw.claims, r.value.pair.refresh.claims, t.issue.row) else Elapse(t.issue.row)
    case Wait(t) => Elapse(t)
    case DeleteUser(id) => Leave(id)
    case DeleteRow(h) => Forget(h.jti)
    case _ => Accounts(Actives(s'.store.users))
  }

  // ---- simulation, step by step --------------------------------------------------------------------

  /** For signed claims, what a held capability is in the history. */
  lemma HeldMeansUnspent(cfg: Config, w: World, raw: RawToken)
    requires Inv(cfg, w)
    ensures raw.Encoded? && raw.claims in Caps(w) <==> Unspent(w, raw) && LiveAt(raw, w.now)
  {
    RowTellsAlways(cfg, w, raw);
  }

  lemma HandoutCaps(cfg: Config, w: World, w': World, user: UserId, t: IssueTimes, jti: Jti, parent: Option<Jti>,
                    mid: map<JtiHash, Row>, c: Claims)
    requires Inv(cfg, w) && Handout(cfg, w, w', user, t, jti, parent, mid) && Prepared(w, t.row, parent, mid)
    requires c in w.sys.signed
    ensures Held(w', c) <==> Held(w, c) && t.row < c.exp && c.jti != parent
  {
    if c.jti.Some? {
      var h := Sha256(c.jti.value);
      assert c.jti.value != jti && h.jti == c.jti.value;
      if h in w.sys.store.tokens {
        assert w.hist.grants[h.jti].claims == c;
      }
    }
  }

  lemma NewClaimsAreNew(cfg: Config, w: World, user: UserId, jti: Jti, now: Instant)
    requires SignedWell(w) && jti !in w.hist.drawn
    ensures forall c :: c in w.sys.signed ==> c.jti != Some(jti)
    ensures NewIn(Abstract(w), RefreshClaims(cfg, user, jti, now))
  {
  }

  lemma HandoutHeld(
    cfg: Config, w: World, w': World, user: UserId, t: IssueTimes, jti: Jti, parent: Option<Jti>,
    mid: map<JtiHash, Row>)
    requires Inv(cfg, w) && Handout(cfg, w, w', user, t, jti, parent, mid) && Prepared(w, t.row, parent, mid)
    ensures forall c :: c in w.sys.signed ==> (Held(w', c) <==> Held(w, c) && t.row < c.exp && c.jti != parent)
  {
    forall c | c in w.sys.signed
      ensures Held(w', c) <==> Held(w, c) && t.row < c.exp && c.jti != parent
    {
      HandoutCaps(cfg, w, w', user, t, jti, parent, mid, c);
    }
  }

  /** Of the claims signed with a new token only the refresh claims are held, and only while alive. */
  lemma HandoutAlive(
    cfg: Config, w: World, w': World, user: UserId, t: IssueTimes, jti: Jti, parent: Option<Jti>,
    mid: map<JtiHash, Row>)
    requires Handout(cfg, w, w', user, t, jti, parent, mid)
    requires forall c :: c in w.sys.signed ==> (Held(w', c) <==> Held(w, c) && t.row < c.exp && c.jti != parent)
    ensures var cap := RefreshClaims(cfg, user, jti, t.refresh);
            Caps(w') == Alive((set c | c in Caps(w) && c.jti != parent) + {cap}, t.row)
  {
    var cap := RefreshClaims(cfg, user, jti, t.refresh);
    var caps := Alive((set c | c in Caps(w) && c.jti != parent) + {cap}, t.row);
    assert Held(w', cap) <==> t.row < cap.exp;
    forall c
      ensures c in Caps(w') <==> c in caps
    {
    }
  }

  lemma HandoutSwaps(
    cfg: Config, w: World, w': World, user: UserId, t: IssueTimes, jti: Jti, parent: Option<Jti>,
    mid: map<JtiHash, Row>)
    requires Inv(cfg, w) && Handout(cfg, w, w', user, t, jti, parent, mid) && Prepared(w, t.row, parent, mid)
    ensures var cap := RefreshClaims(cfg, user, jti, t.refresh);
            Caps(w') == Alive((set c | c in Caps(w) && c.jti != parent) + {cap}, t.row)
    ensures NewIn(Abstract(w), RefreshClaims(cfg, user, jti, t.refresh))
  {
    NewClaimsAreNew(cfg, w, user, jti, t.refresh);
    HandoutHeld(cfg, w, w', user, t, jti, parent, mid);
    HandoutAlive(cfg, w, w', user, t, jti, parent, mid);
  }

  /** A token is the only held capability with its identifier. */
  lemma CapsWithout(w: World, c: Claims)
    requires SignedWell(w) && c in Caps(w)
    ensures (set d | d in Caps(w) && d.jti != c.jti) == Caps(w) - {c}
  {
  }

  lemma MintMoves(cfg: Config, w: World, w': World, user: UserId, t: IssueTimes, jti: Jti)
    requires Inv(cfg, w) && Handout(cfg, w, w', user, t, jti, None, w.sys.store.tokens)
    requires Prepared(w, t.row, None, w.sys.store.tokens) && w.sys.store.users[user].active
    ensures var e := Mint(RefreshClaims(cfg, user, jti, t.refresh), t.row);
            Allowed(Abstract(w), e) && Abstract(w') == Move(Abstract(w), e)
  {
    HandoutSwaps(cfg, w, w', user, t, jti, None, w.sys.store.tokens);
    assert (set c | c in Caps(w) && c.jti != None) == Caps(w);
  }

  lemma SwapMoves(
    cfg: Config, w: World, w': World, user: UserId, t: IssueTimes, jti: Jti, spent: Claims, mid: map<JtiHash, Row>)
    requires Inv(cfg, w) && Handout(cfg, w, w', user, t, jti, spent.jti, mid) && Prepared(w, t.row, spent.jti, mid)
    requires spent in Caps(w) && spent.sub == Some(user) && w.sys.store.users[user].active
    ensures var e := Swap(spent, RefreshClaims(cfg, user, jti, t.refresh), t.row);
            Allowed(Abstract(w), e) && Abstract(w') == Move(Abstract(w), e)
  {
    HandoutSwaps(cfg, w, w', user, t, jti, spent.jti, mid);
    CapsWithout(w, spent);
  }

  lemma LoginSimulates(cfg: Config, w: World, l: Label)
    requires Inv(cfg, w) && Enabled(w, l) && l.LoginCall?
    requires Respond(cfg, w.sys, l).1.Ok?
    ensures Allowed(Abstract(w), Observe(cfg, w, l))
    ensures Abstract(Next(cfg, w, l)) == Move(Abstract(w), Observe(cfg, w, l))
  {
    var user := Authenticate(cfg, w.sys.store.users, w.sys.tally, l.email, l.password, l.fault).1.value;
    LoginHandsOut(cfg, w, l);
    MintMoves(cfg, w, Next(cfg, w, l), user, l.times, l.jti);
    assert Observe(cfg, w, l) == Mint(RefreshClaims(cfg, user, l.jti, l.times.refresh), l.times.row);
  }

  lemma ExchangedWasHeld(w: World, raw: RawToken, t: RefreshTimes)
    requires Judge(w.sys, raw, t).Fit? && w.now <= t.decode
    ensures raw.Encoded? && raw.claims in Caps(w)
    ensures raw.claims.sub == Some(Judge(w.sys, raw, t).user)
    ensures Judge(w.sys, raw, t).user in w.sys.store.users && w.sys.store.users[Judge(w.sys, raw, t).user].active
  {
  }

  lemma RefreshObserved(cfg: Config, w: World, l: Label)
    requires Enabled(w, l) && l.RefreshCall? && Respond(cfg, w.sys, l).1.Ok?
    ensures Judge(w.sys, l.raw, l.at).Fit? && l.raw.Encoded?
    ensures Observe(cfg, w, l) ==
            Swap(l.raw.claims, RefreshClaims(cfg, Judge(w.sys, l.raw, l.at).user, l.jti, l.at.issue.refresh),
                 l.at.issue.row)
  {
  }

  lemma RefreshSimulates(cfg: Config, w: World, l: Label)
    requires Inv(cfg, w) && Enabled(w, l) && l.RefreshCall?
    requires Respond(cfg, w.sys, l).1.Ok?
    ensures Allowed(Abstract(w), Observe(cfg, w, l))
    ensures Abstract(Next(cfg, w, l)) == Move(Abstract(w), Observe(cfg, w, l))
  {
    var user := Judge(w.sys, l.raw, l.at).user;
    RefreshObserved(cfg, w, l);
    RefreshHandsOut(cfg, w, l);
    ExchangedWasHeld(w, l.raw, l.at);
    SwapMoves(cfg, w, Next(cfg, w, l), user, l.at.issue, l.jti, l.raw.claims, RowsBeforeInsert(cfg, w, l));
  }

  /** Claims signed by a request that then failed are held by nobody: no row will match them. */
  lemma ElapseMoves(w: World, w': World)
    requires w.now <= w'.now && w'.sys.store == w.sys.store && w.sys.signed <= w'.sys.signed
    requires forall c :: c in w'.sys.signed && c !in w.sys.signed ==> !Held(w', c)
    ensures Abstract(w') == Move(Abstract(w), Elapse(w'.now))
  {
  }

  lemma SignsUnderItsIdentifier(cfg: Config, w: World, l: Label)
    requires Enabled(w, l) && (l.LoginCall? || l.RefreshCall?)
    ensures w.sys.signed <= Next(cfg, w, l).sys.signed
    ensures forall c :: c in Next(cfg, w, l).sys.signed && c !in w.sys.signed && c.jti.Some? ==> c.jti.value == l.jti
  {
  }

  lemma FailureSimulates(cfg: Config, w: World, l: Label)
    requires Inv(cfg, w) && Enabled(w, l) && (l.LoginCall? || l.RefreshCall?)
    requires !Respond(cfg, w.sys, l).1.Ok?
    ensures Allowed(Abstract(w), Observe(cfg, w, l))
    ensures Abstract(Next(cfg, w, l)) == Move(Abstract(w), Observe(cfg, w, l))
  {
    FailureCommitsNothing(cfg, w.sys, l);
    FreshIsUnknown(cfg, w, l.jti);
    SignsUnderItsIdentifier(cfg, w, l);
    ElapseMoves(w, Next(cfg, w, l));
  }

  lemma RemovalMoves(cfg: Config, w: World, w': World, gone: set<JtiHash>)
    requires SignedWell(w) && GrantsSigned(cfg, w) && RowsGranted(w) && Removal(w, w', gone)
    ensures forall c :: c in w.sys.signed ==>
              (Held(w', c) <==> Held(w, c) && c.jti.Some? && Sha256(c.jti.value) !in gone)
  {
  }

  lemma HeldRowNamesOwner(cfg: Config, w: World, c: Claims)
    requires SignedWell(w) && GrantsSigned(cfg, w) && RowsGranted(w)
    requires c in w.sys.signed && c.jti.Some? && Sha256(c.jti.value) in w.sys.store.tokens
    ensures c.sub == Some(w.sys.store.tokens[Sha256(c.jti.value)].userId)
  {
    assert w.hist.grants[Sha256(c.jti.value).jti].claims == c;
  }

  lemma GoneAreTheirs(cfg: Config, w: World, id: UserId)
    requires SignedWell(w) && GrantsSigned(cfg, w) && RowsGranted(w)
    ensures forall c :: c in Caps(w) ==>
            (Sha256(c.jti.value) in UserRows(w.sys.store.tokens, id) <==> c.sub == Some(id))
  {
    forall c | c in Caps(w)
      ensures Sha256(c.jti.value) in UserRows(w.sys.store.tokens, id) <==> c.sub == Some(id)
    {
      HeldRowNamesOwner(cfg, w, c);
    }
  }

  lemma LeaveMoves(w: World, w': World, id: UserId, gone: set<JtiHash>)
    requires w'.now == w.now && w'.sys.signed == w.sys.signed && w'.sys.store.users == w.sys.store.users - {id}
    requires forall id :: id in w'.sys.store.users ==> w'.sys.store.users[id] == w.sys.store.users[id]
    requires forall c :: c in w.sys.signed ==>
               (Held(w', c) <==> Held(w, c) && c.jti.Some? && Sha256(c.jti.value) !in gone)
    requires forall c :: c in Caps(w) ==> (Sha256(c.jti.value) in gone <==> c.sub == Some(id))
    ensures Abstract(w') == Move(Abstract(w), Leave(id))
  {
    assert Caps(w') == set c | c in Caps(w) && c.sub != Some(id);
    assert Actives(w'.sys.store.users) == Actives(w.sys.store.users) - {id};
  }

  lemma DeleteUserSimulates(cfg: Config, w: World, l: Label)
    requires Inv(cfg, w) && l.DeleteUser?
    ensures Abstract(Next(cfg, w, l)) == Move(Abstract(w), Leave(l.id))
  {
    var gone := UserRows(w.sys.store.tokens, l.id);
    DeleteUserRemoves(cfg, w, l);
    RemovalMoves(cfg, w, Next(cfg, w, l), gone);
    GoneAreTheirs(cfg, w, l.id);
    LeaveMoves(w, Next(cfg, w, l), l.id, gone);
  }

  lemma ForgetMoves(cfg: Config, w: World, w': World, h: JtiHash)
    requires SignedWell(w) && GrantsSigned(cfg, w) && RowsGranted(w)
    requires if h in w.sys.store.tokens then Removal(w, w', {h}) && w'.sys.store.users == w.sys.store.users else w' == w
    ensures Abstract(w') == Move(Abstract(w), Forget(h.jti))
  {
    if h in w.sys.store.tokens {
      RemovalMoves(cfg, w, w', {h});
    }
    assert Sha256(h.jti) == h;
    assert Caps(w') == set c | c in Caps(w) && c.jti != Some(h.jti);
  }

  lemma DeleteRowSimulates(cfg: Config, w: World, l: Label)
    requires Inv(cfg, w) && l.DeleteRow?
    ensures Abstract(Next(cfg, w, l)) == Move(Abstract(w), Forget(l.hash.jti))
  {
    DeleteRowRemoves(cfg, w, l);
    ForgetMoves(cfg, w, Next(cfg, w, l), l.hash);
  }

  lemma AccountsSimulate(cfg: Config, w: World, l: Label)
    requires Inv(cfg, w) && Enabled(w, l) && (l.RegisterCall? || l.SeedCall? || l.SetActive?)
    ensures Allowed(Abstract(w), Observe(cfg, w, l))
    ensures Abstract(Next(cfg, w, l)) == Move(Abstract(w), Observe(cfg, w, l))
  {
    AccountsOnlyGrow(cfg, w.sys, l);
    AccountsMove(w, Next(cfg, w, l));
  }

  lemma AccountsMove(w: World, w': World)
    requires w'.now == w.now && w'.sys.signed == w.sys.signed && w'.sys.store.tokens == w.sys.store.tokens
    requires w.sys.store.users.Keys <= w'.sys.store.users.Keys
    ensures var e := Accounts(Actives(w'.sys.store.users));
            Allowed(Abstract(w), e) && Abstract(w') == Move(Abstract(w), e)
  {
    assert Caps(w') == Caps(w);
  }

  /** Every step of the service is a step the abstract machine allows, and does what it does. */
  lemma StepSimulates(cfg: Config, w: World, l: Label)
    requires Inv(cfg, w) && Enabled(w, l)
    ensures Allowed(Abstract(w), Observe(cfg, w, l))
    ensures Abstract(Next(cfg, w, l)) == Move(Abstract(w), Observe(cfg, w, l))
  {
    match l
    case LoginCall(_, _, _, _, _) =>
      if Respond(cfg, w.sys, l).1.Ok? { LoginSimulates(cfg, w, l); } else { FailureSimulates(cfg, w, l); }
    case RefreshCall(_, _, _, _) =>
      if Respond(cfg, w.sys, l).1.Ok? { RefreshSimulates(cfg, w, l); } else { FailureSimulates(cfg, w, l); }
    case DeleteUser(_) => DeleteUserSimulates(cfg, w, l);
    case DeleteRow(_) => DeleteRowSimulates(cfg, w, l);
    case Wait(_) => ElapseMoves(w, Next(cfg, w, l));
    case _ => AccountsSimulate(cfg, w, l);
  }

  // ---- whole runs ----------------------------------------------------------------------------------

  ghost function Observed(cfg: Config, w: World, run: seq<Label>): seq<Event>
    requires Legal(cfg, w, run)
    decreases |run|
  {
    if run == [] then [] else [Observe(cfg, w, run[0])] + Observed(cfg, Next(cfg, w, run[0]), run[1..])
  }

  ghost predicate Permits(b: Bag, events: seq<Event>)
    decreases |events|
  {
    events == [] || (Allowed(b, events[0]) && Permits(Move(b, events[0]), events[1..]))
  }

  function Perform(b: Bag, events: seq<Event>): Bag
    decreases |events|
  {
    if events == [] then b else Perform(Move(b, events[0]), events[1..])
  }

  /** What is observed of any run is a run of the abstract machine, ending in the abstraction of its end. */
  lemma {:induction false} RunSimulates(cfg: Config, w: World, run: seq<Label>)
    requires Inv(cfg, w) && Legal(cfg, w, run)
    ensures Permits(Abstract(w), Observed(cfg, w, run))
    ensures Abstract(Run(cfg, w, run)) == Perform(Abstract(w), Observed(cfg, w, run))
    decreases |run|
  {
    if run != [] {
      StepSimulates(cfg, w, run[0]);
      NextKeeps(cfg, w, run[0]);
      RunSimulates(cfg, Next(cfg, w, run[0]), run[1..]);
      assert Observed(cfg, w, run)[1..] == Observed(cfg, Next(cfg, w, run[0]), run[1..]);
    }
  }

  /** Conversely, whatever the abstract machine could swap at an instant the service does accept then:
      a refresh at one instant, no call of which raises, succeeds exactly on a capability held and
      still alive whose account is active. */
  lemma AcceptsExactlyCapabilities(cfg: Config, w: World, l: Label)
    requires Inv(cfg, w) && Enabled(w, l) && l.RefreshCall? && l.at.decode == l.at.check && l.fault.None?
    ensures Respond(cfg, w.sys, l).1.Ok? <==>
            && l.raw.Encoded? && l.raw.claims in Alive(Abstract(w).caps, l.at.decode)
            && Entitled(Abstract(w), l.raw.claims.sub)
  {
    AcceptedExactlyWhen(cfg, w, l);
    HeldMeansUnspent(cfg, w, l.raw);
    if Unspent(w, l.raw) {
      RowTellsAlways(cfg, w, l.raw);
    }
  }
}
