/** Rows are conserved by rotation, and cleanup bounds the table by the last refresh lifetime. */
module Conservation {
  import opened Types
  import opened Jwt
  import opened Requests
  import opened Machine
  import opened Invariants

  /** A user's unrevoked, unexpired rows. */
  function LiveRows(tokens: map<JtiHash, Row>, user: UserId, now: Instant): set<JtiHash> {
    set h | h in tokens && tokens[h].userId == user && tokens[h].revokedAt.None? && now <= tokens[h].expiresAt
  }

  lemma HandoutConserves(cfg: Config, w: World, w': World, user: UserId, t: IssueTimes, jti: Jti, parent: Option<Jti>,
                         mid: map<JtiHash, Row>, now: Instant, other: UserId)
    requires Handout(cfg, w, w', user, t, jti, parent, mid) && Prepared(w, now, parent, mid)
             && t == IssueTimes(now, now, now)
    requires Sha256(jti) !in mid
    requires parent.Some? ==>
               && Sha256(parent.value) in w.sys.store.tokens && w.sys.store.tokens[Sha256(parent.value)].userId == user
    ensures var live, live' := LiveRows(w.sys.store.tokens, other, now), LiveRows(w'.sys.store.tokens, other, now);
            live' == (if parent.Some? then live - {Sha256(parent.value)} else live)
                     + (if other == user && cfg.RefreshLifetime() >= 0 then {Sha256(jti)} else {})
  {
  }

  /** A token accepted at an instant has a row that is live then, so the configured lifetime is positive. */
  lemma AcceptedRowIsLive(cfg: Config, w: World, l: Label)
    requires GrantsSigned(cfg, w) && RowsGranted(w) && SignedWell(w)
    requires Enabled(w, l) && l.RefreshCall? && l.at == AtOnce(l.at.decode) && Judge(w.sys, l.raw, l.at).Fit?
    ensures var h := Sha256(l.raw.claims.jti.value);
            && h in LiveRows(w.sys.store.tokens, Judge(w.sys, l.raw, l.at).user, l.at.decode)
            && cfg.RefreshLifetime() > 0
  {
    var h := Sha256(l.raw.claims.jti.value);
    assert w.hist.grants[h.jti].claims == l.raw.claims;
  }

  lemma AcceptingMeansLifetime(cfg: Config, w: World, l: Label)
    requires GrantsSigned(cfg, w) && RowsGranted(w) && SignedWell(w)
    requires Enabled(w, l) && l.RefreshCall? && Judge(w.sys, l.raw, l.at).Fit?
    ensures cfg.RefreshLifetime() > 0
  {
    var h := Sha256(l.raw.claims.jti.value);
    assert w.hist.grants[h.jti].claims == l.raw.claims;
  }

  /** At a fixed clock a successful refresh leaves every account's number of live rows unchanged. */
  lemma RefreshConserves(cfg: Config, w: World, l: Label, user: UserId)
    requires Inv(cfg, w) && Enabled(w, l) && l.RefreshCall? && l.at == AtOnce(l.at.decode)
    requires Respond(cfg, w.sys, l).1.Ok?
    ensures var now := l.at.decode;
            |LiveRows(Next(cfg, w, l).sys.store.tokens, user, now)| == |LiveRows(w.sys.store.tokens, user, now)|
  {
    var now, owner := l.at.decode, Judge(w.sys, l.raw, l.at).user;
    var spent, added := Sha256(l.raw.claims.jti.value), Sha256(l.jti);
    RefreshHandsOut(cfg, w, l);
    AcceptedRowIsLive(cfg, w, l);
    FreshIsUnknown(cfg, w, l.jti);
    HandoutConserves(cfg, w, Next(cfg, w, l), owner, l.at.issue, l.jti, l.raw.claims.jti, RowsBeforeInsert(cfg, w, l),
                     now, user);
    SwapKeepsSize(LiveRows(w.sys.store.tokens, user, now), LiveRows(Next(cfg, w, l).sys.store.tokens, user, now),
                  spent, added, user == owner);
  }

  lemma SwapKeepsSize(live: set<JtiHash>, live': set<JtiHash>, spent: JtiHash, added: JtiHash, mine: bool)
    requires added !in live && (spent in live <==> mine)
    requires live' == live - {spent} + if mine then {added} else {}
    ensures |live'| == |live|
  {
    if !mine {
      assert live' == live;
    }
  }

  /** At a fixed clock a successful login adds one live row to its account (none if the configured
      lifetime is negative) and leaves the other accounts' rows alone. */
  lemma LoginAddsOne(cfg: Config, w: World, l: Label, user: UserId)
    requires Inv(cfg, w) && Enabled(w, l) && l.LoginCall?
             && l.times == IssueTimes(l.times.row, l.times.row, l.times.row)
    requires Respond(cfg, w.sys, l).1.Ok?
    ensures var owner := Authenticate(cfg, w.sys.store.users, w.sys.tally, l.email, l.password, l.fault).1;
            && owner.Ok?
            && |LiveRows(Next(cfg, w, l).sys.store.tokens, user, l.times.row)| ==
               |LiveRows(w.sys.store.tokens, user, l.times.row)|
               + if user == owner.value && cfg.RefreshLifetime() >= 0 then 1 else 0
  {
    var owner := Authenticate(cfg, w.sys.store.users, w.sys.tally, l.email, l.password, l.fault).1.value;
    LoginHandsOut(cfg, w, l);
    FreshIsUnknown(cfg, w, l.jti);
    HandoutConserves(cfg, w, Next(cfg, w, l), owner, l.times, l.jti, None, w.sys.store.tokens, l.times.row, user);
    assert Sha256(l.jti) !in LiveRows(w.sys.store.tokens, user, l.times.row);
  }

  // ---- the size of the table -----------------------------------------------------------------------

  /** The reading of the clock from which a token's row expiry was computed. */
  function IssuedAt(cfg: Config, g: Grant): Instant {
    g.rowExpiry - cfg.RefreshLifetime()
  }

  function IssuedSince(cfg: Config, h: History, since: Instant): set<Jti> {
    set j | j in h.grants && since <= IssuedAt(cfg, h.grants[j])
  }

  /** Every row was issued at or after `since`. */
  ghost predicate Recent(cfg: Config, v: World, since: Instant) {
    forall h :: h in v.sys.store.tokens ==>
      h.jti in v.hist.grants && since <= IssuedAt(cfg, v.hist.grants[h.jti]) <= v.now
  }

  /** Right after a successful refresh every row left was issued within the refresh lifetime before its
      cleanup, so the table is no larger than the number of tokens handed out in that window. */
  lemma TableIsBounded(cfg: Config, w: World, l: Label)
    requires Inv(cfg, w) && Enabled(w, l) && l.RefreshCall? && cfg.cleanup
    requires Respond(cfg, w.sys, l).1.Ok?
    ensures var v, since := Next(cfg, w, l), l.at.cleanup - cfg.RefreshLifetime();
            Recent(cfg, v, since) && |v.sys.store.tokens| <= |IssuedSince(cfg, v.hist, since)|
  {
    RowsAreRecent(cfg, w, l);
    RecentAfter(cfg, w, l);
  }

  lemma RecentAfter(cfg: Config, w: World, l: Label)
    requires Enabled(w, l) && l.RefreshCall? && Recent(cfg, Next(cfg, w, l), l.at.cleanup - cfg.RefreshLifetime())
    ensures var v, since := Next(cfg, w, l), l.at.cleanup - cfg.RefreshLifetime();
            Recent(cfg, v, since) && |v.sys.store.tokens| <= |IssuedSince(cfg, v.hist, since)|
  {
    RecentRowsAreFew(cfg, Next(cfg, w, l), l.at.cleanup - cfg.RefreshLifetime());
  }

  lemma RowsAreRecent(cfg: Config, w: World, l: Label)
    requires Inv(cfg, w) && Enabled(w, l) && l.RefreshCall? && cfg.cleanup
    requires Respond(cfg, w.sys, l).1.Ok?
    ensures Recent(cfg, Next(cfg, w, l), l.at.cleanup - cfg.RefreshLifetime())
  {
    NextIsGranted(cfg, w, l);
    RefreshSweeps(cfg, w, l);
  }

  lemma NextIsGranted(cfg: Config, w: World, l: Label)
    requires Inv(cfg, w) && Enabled(w, l)
    ensures GrantsSigned(cfg, Next(cfg, w, l)) && RowsGranted(Next(cfg, w, l))
  {
    NextKeeps(cfg, w, l);
  }

  lemma RefreshSweeps(cfg: Config, w: World, l: Label)
    requires Inv(cfg, w) && Enabled(w, l) && l.RefreshCall? && cfg.cleanup
    requires Respond(cfg, w.sys, l).1.Ok?
    ensures forall h :: h in Next(cfg, w, l).sys.store.tokens ==>
            l.at.cleanup <= Next(cfg, w, l).sys.store.tokens[h].expiresAt
  {
    RefreshIsHandout(cfg, w, l);
    AcceptingMeansLifetime(cfg, w, l);
    SweptRowsAreRecent(cfg, w, Next(cfg, w, l), l);
  }

  lemma SweptRowsAreRecent(cfg: Config, w: World, v: World, l: Label)
    requires l.RefreshCall? && Judge(w.sys, l.raw, l.at).Fit? && cfg.cleanup && l.at.Ordered()
    requires Handout(cfg, w, v, Judge(w.sys, l.raw, l.at).user, l.at.issue, l.jti, l.raw.claims.jti,
                     RowsBeforeInsert(cfg, w, l))
    requires cfg.RefreshLifetime() > 0
    ensures forall h :: h in v.sys.store.tokens ==> l.at.cleanup <= v.sys.store.tokens[h].expiresAt
  {
  }

  lemma RecentRowsAreFew(cfg: Config, v: World, since: Instant)
    requires Recent(cfg, v, since)
    ensures |v.sys.store.tokens| <= |IssuedSince(cfg, v.hist, since)|
  {
    var jtis := set h | h in v.sys.store.tokens :: h.jti;
    assert jtis <= IssuedSince(cfg, v.hist, since);
    SameSize(v.sys.store.tokens.Keys, jtis);
    SubsetSize(jtis, IssuedSince(cfg, v.hist, since));
  }

  lemma {:induction false} SameSize(hashes: set<JtiHash>, jtis: set<Jti>)
    requires jtis == set h | h in hashes :: h.jti
    ensures |jtis| == |hashes|
    decreases |hashes|
  {
    if hashes != {} {
      var h :| h in hashes;
      var rest := set k | k in hashes - {h} :: k.jti;
      assert forall k: JtiHash :: k.jti == h.jti ==> k == h;
      assert jtis == rest + {h.jti} && h.jti !in rest;
      SameSize(hashes - {h}, rest);
    }
  }

  lemma {:induction false} SubsetSize<T>(a: set<T>, b: set<T>)
    requires a <= b
    ensures |a| <= |b|
  {
    assert b == a + (b - a);
  }
}
