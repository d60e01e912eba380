/** Every step keeps the invariant of the token machine. */
module Invariants {
  import opened Types
  import opened Jwt
  import opened Requests
  import opened Machine
  import Accounts

  lemma InitialHolds(cfg: Config, w: World)
    requires Initial(w)
    ensures Inv(cfg, w)
  {
    assert Roots(w.hist) == {};
  }

  /** What a successful refresh exchanged, in terms of the history. */
  lemma ExchangeFacts(cfg: Config, w: World, l: Label)
    requires Inv(cfg, w) && Enabled(w, l) && l.RefreshCall?
    requires ServeRefresh(cfg, w.sys, l.raw, l.at, l.jti, l.fault).1.Ok?
    ensures l.raw.Encoded? && l.raw.claims.jti.Some?
    ensures var j, h := l.raw.claims.jti.value, w.hist;
            && j in h.grants && h.grants[j].claims == l.raw.claims && j != l.jti
            && j !in h.successor && j !in h.dropped
            && Sha256(j) in w.sys.store.tokens && Judge(w.sys, l.raw, l.at).Fit?
            && h.grants[j].claims.sub == Some(Judge(w.sys, l.raw, l.at).user)
  {
  }

  /** An identifier never drawn has no signed claims, no grant and no row. */
  lemma FreshIsUnknown(cfg: Config, w: World, jti: Jti)
    requires Inv(cfg, w) && jti !in w.hist.drawn
    ensures jti !in w.hist.grants && jti !in w.hist.successor && jti !in w.hist.dropped
    ensures Sha256(jti) !in w.sys.store.tokens
    ensures forall c :: c in w.sys.signed ==> c.jti != Some(jti)
  {
  }

  lemma IssuedClaims(cfg: Config, user: UserId, t: IssueTimes, jti: Jti)
    requires t.Ordered()
    ensures RefreshClaims(cfg, user, jti, t.refresh).exp <= NewRow(cfg, user, t).expiresAt
  {
  }

  /** `w'` is `w` after handing out the token `jti`, rotated from `parent` or after a login, over the rows `mid`. */
  ghost predicate Handout(cfg: Config, w: World, w': World, user: UserId, t: IssueTimes, jti: Jti, parent: Option<Jti>,
                          mid: map<JtiHash, Row>)
  {
    && w.now <= t.access && t.Ordered() && w'.now == t.row && jti !in w.hist.drawn
    && user in w.sys.store.users && w'.sys.store.users == w.sys.store.users
    && w'.sys.store.tokens == mid[Sha256(jti) := NewRow(cfg, user, t)]
    && w'.sys.signed == w.sys.signed + {AccessClaims(cfg, user, t.access)} + {RefreshClaims(cfg, user, jti, t.refresh)}
    && w'.hist.grants == w.hist.grants[jti := Grant(RefreshClaims(cfg, user, jti, t.refresh),
                                                    t.row + cfg.RefreshLifetime(), parent, |w.hist.grants|)]
    && w'.hist.successor == (if parent.Some? then w.hist.successor[parent.value := jti] else w.hist.successor)
    && w'.hist.dropped == w.hist.dropped && w'.hist.drawn == w.hist.drawn + {jti}
    && w'.hist.logins == w.hist.logins + (if parent.Some? then 0 else 1)
  }

  /** `mid` holds the rows of `tokens`, fewer only by expiry, changed only by revoking the parent. */
  ghost predicate Prepared(w: World, now: Instant, parent: Option<Jti>, mid: map<JtiHash, Row>) {
    var tokens := w.sys.store.tokens;
    && (forall h :: h in mid ==>
         && h in tokens && mid[h].userId == tokens[h].userId && mid[h].expiresAt == tokens[h].expiresAt
         && (mid[h].revokedAt.Some? <==> tokens[h].revokedAt.Some? || parent == Some(h.jti)))
    && (forall h :: h in tokens && now <= tokens[h].expiresAt ==> h in mid)
  }

  /** The parent is an unexchanged token of the same account. */
  ghost predicate Exchangeable(w: World, user: UserId, parent: Option<Jti>) {
    parent.Some? ==>
      && parent.value in w.hist.grants && parent.value !in w.hist.successor
      && w.hist.grants[parent.value].claims.sub == Some(user)
  }

  lemma HandoutSigned(
    cfg: Config, w: World, w': World, user: UserId, t: IssueTimes, jti: Jti, parent: Option<Jti>,
    mid: map<JtiHash, Row>)
    requires SignedWell(w) && Handout(cfg, w, w', user, t, jti, parent, mid)
    ensures SignedWell(w')
  {
  }

  lemma HandoutGrants(
    cfg: Config, w: World, w': World, user: UserId, t: IssueTimes, jti: Jti, parent: Option<Jti>,
    mid: map<JtiHash, Row>)
    requires GrantsSigned(cfg, w) && Bookkept(w.hist) && Handout(cfg, w, w', user, t, jti, parent, mid)
    ensures GrantsSigned(cfg, w')
  {
    IssuedClaims(cfg, user, t, jti);
    assert jti !in w.hist.grants;
    assert w'.hist.grants.Keys == w.hist.grants.Keys + {jti};
  }

  lemma HandoutRows(
    cfg: Config, w: World, w': World, user: UserId, t: IssueTimes, jti: Jti, parent: Option<Jti>,
    mid: map<JtiHash, Row>)
    requires RowsGranted(w) && Bookkept(w.hist) && Linked(w.hist)
    requires Handout(cfg, w, w', user, t, jti, parent, mid) && Prepared(w, t.row, parent, mid)
             && Exchangeable(w, user, parent)
    ensures RowsGranted(w')
  {
    assert jti !in w.hist.grants;
    assert jti !in w.hist.successor && parent != Some(jti);
  }

  lemma HandoutLive(
    cfg: Config, w: World, w': World, user: UserId, t: IssueTimes, jti: Jti, parent: Option<Jti>,
    mid: map<JtiHash, Row>)
    requires RowsGranted(w) && LiveRowsKept(w)
    requires Handout(cfg, w, w', user, t, jti, parent, mid) && Prepared(w, t.row, parent, mid)
    ensures LiveRowsKept(w')
  {
    forall j | j in w'.hist.grants && j !in w'.hist.dropped && w'.now <= w'.hist.grants[j].rowExpiry
      ensures Sha256(j) in w'.sys.store.tokens
    {
      if j != jti {
        assert Sha256(j) in w.sys.store.tokens;
        assert Sha256(j).jti == j;
      }
    }
  }

  lemma HandoutLinked(
    cfg: Config, w: World, w': World, user: UserId, t: IssueTimes, jti: Jti, parent: Option<Jti>,
    mid: map<JtiHash, Row>)
    requires GrantsSigned(cfg, w) && Linked(w.hist) && Bookkept(w.hist)
    requires Handout(cfg, w, w', user, t, jti, parent, mid) && Exchangeable(w, user, parent)
    ensures Linked(w'.hist)
  {
    var h, h' := w.hist, w'.hist;
    assert jti !in h.grants;
    forall j | j in h'.successor
      ensures j in h'.grants && h'.successor[j] in h'.grants && h'.grants[h'.successor[j]].parent == Some(j)
    {
      if parent != Some(j) {
        assert h.grants[h.successor[j]].parent == Some(j);
      }
    }
    forall j | j in h'.grants && h'.grants[j].parent.Some?
      ensures var p := h'.grants[j].parent.value;
              && p in h'.successor && h'.successor[p] == j && p in h'.grants
              && h'.grants[p].serial < h'.grants[j].serial
              && h'.grants[p].claims.sub == h'.grants[j].claims.sub
              && h'.grants[p].rowExpiry <= h'.grants[j].rowExpiry
    {
      if j != jti {
        assert h.grants[j].parent.value in h.successor;
      }
    }
  }

  lemma RootsAfter(h: History, h': History, jti: Jti, g: Grant)
    requires jti !in h.grants && h'.grants == h.grants[jti := g]
    ensures Roots(h') == Roots(h) + if g.parent.None? then {jti} else {}
  {
  }

  lemma BooksAfter(h: History, h': History, jti: Jti, g: Grant)
    requires Bookkept(h) && jti !in h.grants && h'.grants == h.grants[jti := g]
    requires h'.drawn == h.drawn + {jti} && h'.dropped == h.dropped
    requires h'.logins == h.logins + if g.parent.Some? then 0 else 1
    ensures Bookkept(h')
  {
    RootsCount(h, h', jti, g);
    assert h'.grants.Keys == h.grants.Keys + {jti};
  }

  lemma RootsCount(h: History, h': History, jti: Jti, g: Grant)
    requires jti !in h.grants && h'.grants == h.grants[jti := g]
    ensures |Roots(h')| == |Roots(h)| + if g.parent.Some? then 0 else 1
  {
    RootsAfter(h, h', jti, g);
    assert jti !in Roots(h);
  }

  lemma HandoutBooks(
    cfg: Config, w: World, w': World, user: UserId, t: IssueTimes, jti: Jti, parent: Option<Jti>,
    mid: map<JtiHash, Row>)
    requires Bookkept(w.hist) && Handout(cfg, w, w', user, t, jti, parent, mid)
    ensures Bookkept(w'.hist)
  {
    BooksAfter(w.hist, w'.hist, jti, w'.hist.grants[jti]);
  }

  lemma HandoutKeeps(
    cfg: Config, w: World, w': World, user: UserId, t: IssueTimes, jti: Jti, parent: Option<Jti>,
    mid: map<JtiHash, Row>)
    requires Inv(cfg, w) && Handout(cfg, w, w', user, t, jti, parent, mid)
    requires Prepared(w, t.row, parent, mid) && Exchangeable(w, user, parent)
    ensures Inv(cfg, w')
  {
    HandoutSigned(cfg, w, w', user, t, jti, parent, mid);
    HandoutGrants(cfg, w, w', user, t, jti, parent, mid);
    HandoutRows(cfg, w, w', user, t, jti, parent, mid);
    HandoutLive(cfg, w, w', user, t, jti, parent, mid);
    HandoutLinked(cfg, w, w', user, t, jti, parent, mid);
    HandoutBooks(cfg, w, w', user, t, jti, parent, mid);
  }

  /** The rows as a refresh leaves them before it inserts. */
  function RowsBeforeInsert(cfg: Config, w: World, l: Label): map<JtiHash, Row>
    requires l.RefreshCall? && Judge(w.sys, l.raw, l.at).Fit?
  {
    Swept(cfg, Revoked(w.sys.store.tokens, Sha256(l.raw.claims.jti.value), l.at.revoke), l.at.cleanup)
  }

  lemma PreparedForInsert(cfg: Config, w: World, l: Label)
    requires RowsGranted(w) && l.RefreshCall? && Judge(w.sys, l.raw, l.at).Fit?
    ensures Prepared(w, l.at.cleanup, l.raw.claims.jti, RowsBeforeInsert(cfg, w, l))
  {
    assert forall h: JtiHash :: Sha256(h.jti) == h;
  }

  lemma RefreshIsHandout(cfg: Config, w: World, l: Label)
    requires Enabled(w, l) && l.RefreshCall?
    requires ServeRefresh(cfg, w.sys, l.raw, l.at, l.jti, l.fault).1.Ok?
    ensures Judge(w.sys, l.raw, l.at).Fit? && l.raw.claims.jti.Some?
    ensures Handout(cfg, w, Next(cfg, w, l), Judge(w.sys, l.raw, l.at).user, l.at.issue, l.jti, l.raw.claims.jti,
                    RowsBeforeInsert(cfg, w, l))
  {
  }

  lemma RefreshHandsOut(cfg: Config, w: World, l: Label)
    requires Inv(cfg, w) && Enabled(w, l) && l.RefreshCall?
    requires ServeRefresh(cfg, w.sys, l.raw, l.at, l.jti, l.fault).1.Ok?
    ensures Judge(w.sys, l.raw, l.at).Fit? && l.raw.claims.jti.Some?
    ensures var user := Judge(w.sys, l.raw, l.at).user;
            && Handout(cfg, w, Next(cfg, w, l), user, l.at.issue, l.jti, l.raw.claims.jti, RowsBeforeInsert(cfg, w, l))
            && Prepared(w, l.at.issue.row, l.raw.claims.jti, RowsBeforeInsert(cfg, w, l))
            && Exchangeable(w, user, l.raw.claims.jti)
  {
    RefreshIsHandout(cfg, w, l);
    ExchangeFacts(cfg, w, l);
    PreparedForInsert(cfg, w, l);
    PreparedLater(w, l.at.cleanup, l.at.issue.row, l.raw.claims.jti, RowsBeforeInsert(cfg, w, l));
  }

  lemma PreparedLater(w: World, t: Instant, t': Instant, parent: Option<Jti>, mid: map<JtiHash, Row>)
    requires t <= t' && Prepared(w, t, parent, mid)
    ensures Prepared(w, t', parent, mid)
  {
  }

  lemma LoginHandsOut(cfg: Config, w: World, l: Label)
    requires Enabled(w, l) && l.LoginCall?
    requires ServeLogin(cfg, w.sys, l.email, l.password, l.times, l.jti, l.fault).1.Ok?
    ensures var user := Authenticate(cfg, w.sys.store.users, w.sys.tally, l.email, l.password, l.fault).1;
            && user.Ok? && Handout(cfg, w, Next(cfg, w, l), user.value, l.times, l.jti, None, w.sys.store.tokens)
            && w.sys.store.users[user.value].active
            && Prepared(w, l.times.row, None, w.sys.store.tokens)
  {
  }

  /** A request that fails may have signed claims no row will ever match; nothing else. */
  ghost predicate OnlySigned(cfg: Config, w: World, w': World, jti: Jti) {
    && w.now <= w'.now && jti !in w.hist.drawn && w'.sys.store == w.sys.store
    && w'.hist == w.hist.(drawn := w.hist.drawn + {jti})
    && w.sys.signed <= w'.sys.signed
    && exists user, access, refresh ::
         w'.sys.signed <= w.sys.signed + {AccessClaims(cfg, user, access), RefreshClaims(cfg, user, jti, refresh)}
  }

  lemma OnlySignedWell(cfg: Config, w: World, w': World, jti: Jti)
    requires SignedWell(w) && OnlySigned(cfg, w, w', jti)
    ensures SignedWell(w')
  {
    var user, access, refresh :|
      w'.sys.signed <= w.sys.signed + {AccessClaims(cfg, user, access), RefreshClaims(cfg, user, jti, refresh)};
    var a, r := AccessClaims(cfg, user, access), RefreshClaims(cfg, user, jti, refresh);
    assert forall c :: c in w'.sys.signed ==> c in w.sys.signed || c == a || c == r;
    assert forall c :: c in w.sys.signed ==> c.jti != r.jti;
  }

  lemma OnlySignedRows(cfg: Config, w: World, w': World, jti: Jti)
    requires GrantsSigned(cfg, w) && RowsGranted(w) && LiveRowsKept(w) && Bookkept(w.hist)
    requires OnlySigned(cfg, w, w', jti)
    ensures GrantsSigned(cfg, w') && RowsGranted(w') && LiveRowsKept(w') && Bookkept(w'.hist)
  {
    assert Roots(w'.hist) == Roots(w.hist);
  }

  lemma OnlySignedKeeps(cfg: Config, w: World, w': World, jti: Jti)
    requires Inv(cfg, w) && OnlySigned(cfg, w, w', jti)
    ensures Inv(cfg, w')
  {
    OnlySignedWell(cfg, w, w', jti);
    OnlySignedRows(cfg, w, w', jti);
  }

  lemma RefreshOnlySigns(cfg: Config, w: World, l: Label)
    requires Enabled(w, l) && l.RefreshCall? && !ServeRefresh(cfg, w.sys, l.raw, l.at, l.jti, l.fault).1.Ok?
    ensures OnlySigned(cfg, w, Next(cfg, w, l), l.jti)
  {
    var j := Judge(w.sys, l.raw, l.at);
    var user := if j.Fit? then j.user else 0;
    assert Next(cfg, w, l).sys.signed <= w.sys.signed + {AccessClaims(cfg, user, l.at.issue.access),
                                                         RefreshClaims(cfg, user, l.jti, l.at.issue.refresh)};
  }

  lemma LoginOnlySigns(cfg: Config, w: World, l: Label)
    requires Enabled(w, l) && l.LoginCall?
             && !ServeLogin(cfg, w.sys, l.email, l.password, l.times, l.jti, l.fault).1.Ok?
    ensures OnlySigned(cfg, w, Next(cfg, w, l), l.jti)
  {
    var who := Authenticate(cfg, w.sys.store.users, w.sys.tally, l.email, l.password, l.fault).1;
    var user := if who.Ok? then who.value else 0;
    assert Next(cfg, w, l).sys.signed <= w.sys.signed + {AccessClaims(cfg, user, l.times.access),
                                                         RefreshClaims(cfg, user, l.jti, l.times.refresh)};
  }

  lemma RefreshKeeps(cfg: Config, w: World, l: Label)
    requires Inv(cfg, w) && Enabled(w, l) && l.RefreshCall?
    ensures Inv(cfg, Next(cfg, w, l))
  {
    var w' := Next(cfg, w, l);
    if ServeRefresh(cfg, w.sys, l.raw, l.at, l.jti, l.fault).1.Ok? {
      RefreshHandsOut(cfg, w, l);
      HandoutKeeps(cfg, w, w', Judge(w.sys, l.raw, l.at).user, l.at.issue, l.jti, l.raw.claims.jti,
                   RowsBeforeInsert(cfg, w, l));
    } else {
      RefreshOnlySigns(cfg, w, l);
      OnlySignedKeeps(cfg, w, w', l.jti);
    }
  }

  lemma LoginKeeps(cfg: Config, w: World, l: Label)
    requires Inv(cfg, w) && Enabled(w, l) && l.LoginCall?
    ensures Inv(cfg, Next(cfg, w, l))
  {
    var w' := Next(cfg, w, l);
    if ServeLogin(cfg, w.sys, l.email, l.password, l.times, l.jti, l.fault).1.Ok? {
      LoginHandsOut(cfg, w, l);
      HandoutKeeps(cfg, w, w', Authenticate(cfg, w.sys.store.users, w.sys.tally, l.email, l.password, l.fault).1.value,
                   l.times, l.jti, None, w.sys.store.tokens);
    } else {
      LoginOnlySigns(cfg, w, l);
      OnlySignedKeeps(cfg, w, w', l.jti);
    }
  }

  /** `w'` is `w` without the rows `gone` and possibly without accounts that have no other row. */
  ghost predicate Removal(w: World, w': World, gone: set<JtiHash>) {
    && w'.now == w.now && w'.sys.signed == w.sys.signed
    && gone <= w.sys.store.tokens.Keys && w'.sys.store.tokens == w.sys.store.tokens - gone
    && w'.sys.store.users.Keys <= w.sys.store.users.Keys
    && (forall id :: id in w'.sys.store.users ==> w'.sys.store.users[id] == w.sys.store.users[id])
    && (forall h :: h in w'.sys.store.tokens && w'.sys.store.tokens[h].userId in w.sys.store.users ==>
         w'.sys.store.tokens[h].userId in w'.sys.store.users)
    && w'.hist == w.hist.(dropped := w.hist.dropped + set h | h in gone :: h.jti)
  }

  lemma RemovalKeeps(cfg: Config, w: World, w': World, gone: set<JtiHash>)
    requires Inv(cfg, w) && Removal(w, w', gone)
    ensures Inv(cfg, w')
  {
    assert Roots(w'.hist) == Roots(w.hist);
    assert RowsGranted(w') by {
      forall h | h in w'.sys.store.tokens ensures h.jti !in w'.hist.dropped {
        assert forall k :: k in gone ==> Sha256(k.jti) == k;
      }
    }
    assert LiveRowsKept(w') by {
      forall j | j in w'.hist.grants && j !in w'.hist.dropped && w'.now <= w'.hist.grants[j].rowExpiry
        ensures Sha256(j) in w'.sys.store.tokens
      {
        assert Sha256(j) in gone ==> Sha256(j).jti in w'.hist.dropped;
      }
    }
  }

  lemma DeleteUserRemoves(cfg: Config, w: World, l: Label)
    requires RowsGranted(w) && l.DeleteUser?
    ensures Removal(w, Next(cfg, w, l), UserRows(w.sys.store.tokens, l.id))
  {
  }

  lemma DeleteRowRemoves(cfg: Config, w: World, l: Label)
    requires RowsGranted(w) && l.DeleteRow?
    ensures if l.hash in w.sys.store.tokens then Removal(w, Next(cfg, w, l), {l.hash}) else Next(cfg, w, l) == w
  {
    if l.hash in w.sys.store.tokens {
      assert (set h | h in {l.hash} :: h.jti) == {l.hash.jti};
    } else {
      assert w.sys.store.tokens - {l.hash} == w.sys.store.tokens;
    }
  }

  /** `w'` is `w` later, with accounts added or changed, none of them removed. */
  ghost predicate Unrelated(w: World, w': World) {
    && w.now <= w'.now && w'.sys.signed == w.sys.signed && w'.sys.store.tokens == w.sys.store.tokens
    && w'.hist == w.hist && w.sys.store.users.Keys <= w'.sys.store.users.Keys
  }

  lemma UnrelatedKeeps(cfg: Config, w: World, w': World)
    requires Inv(cfg, w) && Unrelated(w, w')
    ensures Inv(cfg, w')
  {
  }

  lemma OtherKeeps(cfg: Config, w: World, l: Label)
    requires Inv(cfg, w) && Enabled(w, l) && (l.RegisterCall? || l.SeedCall? || l.Wait? || l.SetActive?)
    ensures Inv(cfg, Next(cfg, w, l))
  {
    AccountsOnlyGrow(cfg, w.sys, l);
    UnrelatedKeeps(cfg, w, Next(cfg, w, l));
  }

  /** Registering, seeding and (de)activating remove no account and touch no row. */
  lemma AccountsOnlyGrow(cfg: Config, s: Sys, l: Label)
    requires l.RegisterCall? || l.SeedCall? || l.Wait? || l.SetActive?
    requires l.SeedCall? ==> |l.ids| == |l.fixtures|
    ensures var s' := Respond(cfg, s, l).0;
            s.store.users.Keys <= s'.store.users.Keys && s'.store.tokens == s.store.tokens && s'.signed == s.signed
  {
    if l.SeedCall? {
      Accounts.PlantExtends(cfg, s.store.users, l.fixtures, l.ids, l.fault, 0);
    }
  }

  /** No row comes back, changes hands or is unrevoked: what is new is keyed by a new identifier. */
  ghost predicate RowsMove(w: World, w': World) {
    && w.hist.drawn <= w'.hist.drawn
    && var tokens, tokens' := w.sys.store.tokens, w'.sys.store.tokens;
       forall h :: h in tokens' && h.jti in w.hist.drawn ==>
         && h in tokens && tokens'[h].userId == tokens[h].userId && tokens'[h].expiresAt == tokens[h].expiresAt
         && (tokens[h].revokedAt.Some? ==> tokens'[h].revokedAt.Some?)
  }

  lemma HandoutMoves(
    cfg: Config, w: World, w': World, user: UserId, t: IssueTimes, jti: Jti, parent: Option<Jti>,
    mid: map<JtiHash, Row>)
    requires Handout(cfg, w, w', user, t, jti, parent, mid) && Prepared(w, t.row, parent, mid)
    ensures RowsMove(w, w')
    ensures Sha256(jti) in w'.sys.store.tokens && w'.sys.store.tokens[Sha256(jti)] == NewRow(cfg, user, t)
  {
  }

  /** A request that fails commits nothing. */
  lemma FailureCommitsNothing(cfg: Config, s: Sys, l: Label)
    requires l.SeedCall? ==> |l.ids| == |l.fixtures|
    requires !Respond(cfg, s, l).1.Ok?
    ensures Respond(cfg, s, l).0.store == s.store
  {
  }

  lemma StepRows(cfg: Config, w: World, l: Label)
    requires Inv(cfg, w) && Enabled(w, l)
    ensures RowsMove(w, Next(cfg, w, l))
  {
    var w' := Next(cfg, w, l);
    if !Respond(cfg, w.sys, l).1.Ok? {
      FailureCommitsNothing(cfg, w.sys, l);
    } else {
      match l
      case LoginCall(_, _, _, _, _) =>
        LoginHandsOut(cfg, w, l);
        HandoutMoves(cfg, w, w',
                     Authenticate(cfg, w.sys.store.users, w.sys.tally, l.email, l.password, l.fault).1.value,
                     l.times, l.jti, None, w.sys.store.tokens);
      case RefreshCall(_, _, _, _) =>
        RefreshHandsOut(cfg, w, l);
        HandoutMoves(cfg, w, w', Judge(w.sys, l.raw, l.at).user, l.at.issue, l.jti, l.raw.claims.jti,
                     RowsBeforeInsert(cfg, w, l));
      case DeleteUser(_) => DeleteUserRemoves(cfg, w, l);
      case DeleteRow(_) => DeleteRowRemoves(cfg, w, l);
      case _ => AccountsOnlyGrow(cfg, w.sys, l);
    }
  }

  lemma NextKeeps(cfg: Config, w: World, l: Label)
    requires Inv(cfg, w) && Enabled(w, l)
    ensures Inv(cfg, Next(cfg, w, l))
  {
    match l
    case LoginCall(_, _, _, _, _) => LoginKeeps(cfg, w, l);
    case RefreshCall(_, _, _, _) => RefreshKeeps(cfg, w, l);
    case DeleteUser(id) =>
      DeleteUserRemoves(cfg, w, l);
      RemovalKeeps(cfg, w, Next(cfg, w, l), UserRows(w.sys.store.tokens, id));
    case DeleteRow(h) =>
      DeleteRowRemoves(cfg, w, l);
      if h in w.sys.store.tokens {
        RemovalKeeps(cfg, w, Next(cfg, w, l), {h});
      }
    case _ => OtherKeeps(cfg, w, l);
  }

  lemma {:induction false} RunKeeps(cfg: Config, w: World, run: seq<Label>)
    requires Inv(cfg, w) && Legal(cfg, w, run)
    ensures Inv(cfg, Run(cfg, w, run))
    decreases |run|
  {
    if run != [] {
      NextKeeps(cfg, w, run[0]);
      RunKeeps(cfg, Next(cfg, w, run[0]), run[1..]);
    }
  }

  /** In every run, from every initial state. */
  lemma ReachableHolds(cfg: Config, w: World, run: seq<Label>)
    requires Initial(w) && Legal(cfg, w, run)
    ensures Inv(cfg, Run(cfg, w, run))
  {
    InitialHolds(cfg, w);
    RunKeeps(cfg, w, run);
  }
}
