/** `cleanup_expired` is invisible: a run answers every request as the same run would without it. */
module Cleanup {
  import opened Types
  import opened Jwt
  import opened Requests
  import opened Machine
  import opened Invariants

  function With(cfg: Config): Config {
    cfg.(cleanup := true)
  }

  function Without(cfg: Config): Config {
    cfg.(cleanup := false)
  }

  /** `rows` is `all` without some rows that have expired. */
  ghost predicate Thinned(rows: map<JtiHash, Row>, all: map<JtiHash, Row>, now: Instant) {
    && (forall h :: h in rows ==> h in all && rows[h] == all[h])
    && (forall h :: h in all && h !in rows ==> all[h].expiresAt < now)
  }

  ghost predicate SameBut(s: Sys, v: Sys, now: Instant) {
    && s.store.users == v.store.users && s.signed == v.signed && s.tally == v.tally
    && Thinned(s.store.tokens, v.store.tokens, now)
  }

  /** The JWT of an expired row no longer decodes. */
  ghost predicate DeadWhenExpired(w: World) {
    forall c :: c in w.sys.signed && c.jti.Some? && Sha256(c.jti.value) in w.sys.store.tokens ==>
      (w.sys.store.tokens[Sha256(c.jti.value)].expiresAt < w.now ==> c.exp <= w.now)
  }

  lemma ExpiredRowsAreDead(cfg: Config, w: World)
    requires SignedWell(w) && GrantsSigned(cfg, w) && RowsGranted(w)
    ensures DeadWhenExpired(w)
  {
    forall c | c in w.sys.signed && c.jti.Some? && Sha256(c.jti.value) in w.sys.store.tokens
      ensures c.exp <= w.sys.store.tokens[Sha256(c.jti.value)].expiresAt
    {
      assert w.hist.grants[Sha256(c.jti.value).jti].claims == c;
    }
  }

  /** Two states that differ in nothing a request can see. */
  ghost predicate Alike(w: World, v: World) {
    w.now == v.now && w.hist.drawn == v.hist.drawn && SameBut(w.sys, v.sys, w.now)
  }

  lemma SameJudgement(w: World, v: World, raw: RawToken, t: RefreshTimes)
    requires Alike(w, v) && DeadWhenExpired(v) && w.now <= t.decode
    ensures Judge(w.sys, raw, t) == Judge(v.sys, raw, t)
  {
  }

  /** Revoking and sweeping on one side, revoking on the other. */
  lemma SweepThins(
    cfg: Config, rows: map<JtiHash, Row>, all: map<JtiHash, Row>, h: JtiHash, t: RefreshTimes, now: Instant)
    requires Thinned(rows, all, now) && h in rows && h in all && now <= t.cleanup <= t.issue.row
    ensures Thinned(Swept(With(cfg), Revoked(rows, h, t.revoke), t.cleanup),
                    Swept(Without(cfg), Revoked(all, h, t.revoke), t.cleanup), t.issue.row)
  {
  }

  lemma InsertThins(rows: map<JtiHash, Row>, all: map<JtiHash, Row>, h: JtiHash, row: Row, now: Instant)
    requires Thinned(rows, all, now)
    ensures Thinned(rows[h := row], all[h := row], now)
  {
  }

  lemma LaterThins(rows: map<JtiHash, Row>, all: map<JtiHash, Row>, now: Instant, later: Instant)
    requires Thinned(rows, all, now) && now <= later
    ensures Thinned(rows, all, later)
  {
  }

  /** The same judgement leads both to the same response. */
  lemma RefreshResponds(cfg: Config, s: Sys, v: Sys, l: Label, now: Instant)
    requires l.RefreshCall? && SameBut(s, v, now)
    requires Judge(s, l.raw, l.at) == Judge(v, l.raw, l.at)
    requires Sha256(l.jti) !in s.store.tokens && Sha256(l.jti) !in v.store.tokens
    ensures var (s', r) := ServeRefresh(With(cfg), s, l.raw, l.at, l.jti, l.fault);
            var (v', q) := ServeRefresh(Without(cfg), v, l.raw, l.at, l.jti, l.fault);
            r == q && s'.signed == v'.signed && s'.tally == v'.tally && s'.store.users == v'.store.users
  {
  }

  lemma FailureKeepsStore(cfg: Config, s: Sys, l: Label)
    requires l.RefreshCall? && !ServeRefresh(cfg, s, l.raw, l.at, l.jti, l.fault).1.Ok?
    ensures ServeRefresh(cfg, s, l.raw, l.at, l.jti, l.fault).0.store == s.store
  {
  }

  lemma SuccessRows(cfg: Config, w: World, l: Label)
    requires Enabled(w, l) && l.RefreshCall? && ServeRefresh(cfg, w.sys, l.raw, l.at, l.jti, l.fault).1.Ok?
    ensures Judge(w.sys, l.raw, l.at).Fit? && l.raw.claims.jti.Some?
    ensures ServeRefresh(cfg, w.sys, l.raw, l.at, l.jti, l.fault).0.store.tokens ==
            RowsBeforeInsert(cfg, w, l)[Sha256(l.jti) := NewRow(cfg, Judge(w.sys, l.raw, l.at).user, l.at.issue)]
  {
  }

  predicate Unknown(w: World, jti: Jti) {
    Sha256(jti) !in w.sys.store.tokens
  }

  lemma SuccessThins(cfg: Config, w: World, v: World, l: Label)
    requires Alike(w, v) && Enabled(w, l) && l.RefreshCall?
    requires Judge(w.sys, l.raw, l.at) == Judge(v.sys, l.raw, l.at)
    requires ServeRefresh(With(cfg), w.sys, l.raw, l.at, l.jti, l.fault).1.Ok?
    requires ServeRefresh(Without(cfg), v.sys, l.raw, l.at, l.jti, l.fault).1.Ok?
    ensures Thinned(ServeRefresh(With(cfg), w.sys, l.raw, l.at, l.jti, l.fault).0.store.tokens,
                    ServeRefresh(Without(cfg), v.sys, l.raw, l.at, l.jti, l.fault).0.store.tokens, l.at.issue.row)
  {
    SuccessRows(With(cfg), w, l);
    SuccessRows(Without(cfg), v, l);
    SweepThins(cfg, w.sys.store.tokens, v.sys.store.tokens, Sha256(l.raw.claims.jti.value), l.at, w.now);
    InsertThins(RowsBeforeInsert(With(cfg), w, l), RowsBeforeInsert(Without(cfg), v, l), Sha256(l.jti),
                NewRow(cfg, Judge(w.sys, l.raw, l.at).user, l.at.issue), l.at.issue.row);
  }

  lemma RefreshAgrees(cfg: Config, w: World, v: World, l: Label)
    requires Alike(w, v) && Enabled(w, l) && l.RefreshCall? && Unknown(w, l.jti) && Unknown(v, l.jti)
    requires Judge(w.sys, l.raw, l.at) == Judge(v.sys, l.raw, l.at)
    ensures Respond(With(cfg), w.sys, l).1 == Respond(Without(cfg), v.sys, l).1
    ensures SameBut(Respond(With(cfg), w.sys, l).0, Respond(Without(cfg), v.sys, l).0, l.at.issue.row)
  {
    RefreshResponds(cfg, w.sys, v.sys, l, w.now);
    if ServeRefresh(With(cfg), w.sys, l.raw, l.at, l.jti, l.fault).1.Ok? {
      SuccessThins(cfg, w, v, l);
    } else {
      FailureKeepsStore(With(cfg), w.sys, l);
      FailureKeepsStore(Without(cfg), v.sys, l);
      LaterThins(w.sys.store.tokens, v.sys.store.tokens, w.now, l.at.issue.row);
    }
  }

  lemma LoginAgrees(cfg: Config, w: World, v: World, l: Label)
    requires Alike(w, v) && Enabled(w, l) && l.LoginCall? && Unknown(w, l.jti) && Unknown(v, l.jti)
    ensures Respond(With(cfg), w.sys, l).1 == Respond(Without(cfg), v.sys, l).1
    ensures SameBut(Respond(With(cfg), w.sys, l).0, Respond(Without(cfg), v.sys, l).0, l.times.row)
  {
    var who := Authenticate(cfg, w.sys.store.users, w.sys.tally, l.email, l.password, l.fault).1;
    SameLogin(cfg, w.sys, v.sys, l);
    LaterThins(w.sys.store.tokens, v.sys.store.tokens, w.now, l.times.row);
    if who.Ok? {
      SameIssue(cfg, w.sys.store, v.sys.store, w.sys.signed, who.value, l.times, l.jti, l.fault, l.times.row);
    }
  }

  /** Issuing does not depend on `cleanup` either, nor on expired rows. */
  lemma SameIssue(cfg: Config, s: Store, v: Store, signed: set<Claims>, user: UserId, t: IssueTimes, jti: Jti,
                  fault: Option<nat>, now: Instant)
    requires s.users == v.users && Thinned(s.tokens, v.tokens, now)
    requires Sha256(jti) !in s.tokens && Sha256(jti) !in v.tokens
    ensures var (s', signed', r) := Issue(With(cfg), s, signed, user, t, jti, fault, 1);
            var (v', marked, q) := Issue(Without(cfg), v, signed, user, t, jti, fault, 1);
            r == q && signed' == marked && s'.users == v'.users && Thinned(s'.tokens, v'.tokens, now)
  {
    InsertThins(s.tokens, v.tokens, Sha256(jti), NewRow(cfg, user, t), now);
  }

  /** Authentication does not depend on `cleanup`. */
  lemma SameLogin(cfg: Config, s: Sys, v: Sys, l: Label)
    requires l.LoginCall? && s.store.users == v.store.users && s.tally == v.tally
    ensures Authenticate(With(cfg), s.store.users, s.tally, l.email, l.password, l.fault) ==
            Authenticate(cfg, v.store.users, v.tally, l.email, l.password, l.fault) ==
            Authenticate(Without(cfg), v.store.users, v.tally, l.email, l.password, l.fault)
  {
    SameLookup(cfg, s.store.users, l.email);
  }

  lemma SameLookup(cfg: Config, users: map<UserId, User>, email: string)
    ensures FindByEmail(With(cfg), users, email) == FindByEmail(cfg, users, email)
            == FindByEmail(Without(cfg), users, email)
  {
    assert Matches(With(cfg), users, email) == Matches(cfg, users, email) == Matches(Without(cfg), users, email);
  }

  lemma {:induction false} SamePlant(cfg: Config, users: map<UserId, User>, fixtures: seq<Fixture>, ids: seq<UserId>,
                                     fault: Option<nat>, calls: nat)
    requires |ids| == |fixtures|
    ensures Plant(With(cfg), users, fixtures, ids, fault, calls)
            == Plant(Without(cfg), users, fixtures, ids, fault, calls)
    decreases |fixtures|
  {
    if fixtures != [] && fixtures[0].email.Some? {
      SameLookup(cfg, users, fixtures[0].email.value);
      var m := FindByEmail(cfg, users, fixtures[0].email.value);
      if m.One? {
        SamePlant(cfg, users, fixtures[1..], ids[1..], fault, calls + 1);
      } else if m.NoMatch? {
        SamePlant(cfg, users[ids[0] := FixtureUser(fixtures[0])], fixtures[1..], ids[1..], fault, calls + 2);
      }
    }
  }

  lemma OtherAgrees(cfg: Config, s: Sys, v: Sys, l: Label, now: Instant)
    requires SameBut(s, v, now) && !l.LoginCall? && !l.RefreshCall?
    requires l.SeedCall? ==> |l.ids| == |l.fixtures|
    ensures Respond(With(cfg), s, l).1 == Respond(Without(cfg), v, l).1
    ensures SameBut(Respond(With(cfg), s, l).0, Respond(Without(cfg), v, l).0, now)
  {
    if l.RegisterCall? {
      SameLookup(cfg, s.store.users, l.email);
    } else if l.SeedCall? {
      SamePlant(cfg, s.store.users, l.fixtures, l.ids, l.fault, 0);
    }
  }

  /** One step on both sides: the same answer, and the sides stay alike. */
  lemma StepAgrees(cfg: Config, w: World, v: World, l: Label)
    requires Alike(w, v) && DeadWhenExpired(v) && Enabled(w, l)
    requires l.LoginCall? || l.RefreshCall? ==> Unknown(w, l.jti) && Unknown(v, l.jti)
    ensures Enabled(v, l) && Respond(With(cfg), w.sys, l).1 == Respond(Without(cfg), v.sys, l).1
    ensures SameBut(Respond(With(cfg), w.sys, l).0, Respond(Without(cfg), v.sys, l).0, After(w, l))
  {
    if l.RefreshCall? {
      SameJudgement(w, v, l.raw, l.at);
      RefreshAgrees(cfg, w, v, l);
    } else if l.LoginCall? {
      LoginAgrees(cfg, w, v, l);
    } else {
      OtherAgrees(cfg, w.sys, v.sys, l, w.now);
      LaterThins(Respond(With(cfg), w.sys, l).0.store.tokens, Respond(Without(cfg), v.sys, l).0.store.tokens, w.now,
                 After(w, l));
    }
  }

  lemma StepStaysAlike(cfg: Config, w: World, v: World, l: Label)
    requires Alike(w, v) && Enabled(w, l) && Enabled(v, l)
    requires SameBut(Respond(With(cfg), w.sys, l).0, Respond(Without(cfg), v.sys, l).0, After(w, l))
    ensures Alike(Next(With(cfg), w, l), Next(Without(cfg), v, l))
  {
  }

  function Responses(cfg: Config, w: World, run: seq<Label>): seq<Result<Reply>>
    requires Legal(cfg, w, run)
    decreases |run|
  {
    if run == [] then [] else [Respond(cfg, w.sys, run[0]).1] + Responses(cfg, Next(cfg, w, run[0]), run[1..])
  }

  lemma {:induction false} RunsAgree(cfg: Config, w: World, v: World, run: seq<Label>)
    requires Inv(With(cfg), w) && Inv(Without(cfg), v) && Alike(w, v) && Legal(With(cfg), w, run)
    ensures Legal(Without(cfg), v, run)
    ensures Responses(With(cfg), w, run) == Responses(Without(cfg), v, run)
    ensures Alike(Run(With(cfg), w, run), Run(Without(cfg), v, run))
    decreases |run|
  {
    if run != [] {
      var l := run[0];
      if l.LoginCall? || l.RefreshCall? {
        FreshIsUnknown(With(cfg), w, l.jti);
        FreshIsUnknown(Without(cfg), v, l.jti);
      }
      ExpiredRowsAreDead(Without(cfg), v);
      StepAgrees(cfg, w, v, l);
      StepStaysAlike(cfg, w, v, l);
      NextKeeps(With(cfg), w, l);
      NextKeeps(Without(cfg), v, l);
      RunsAgree(cfg, Next(With(cfg), w, l), Next(Without(cfg), v, l), run[1..]);
    }
  }

  /** From any initial state, every response of a run, refusal messages included, is the response of
      the same run in which cleanup deletes nothing; and the rows it deletes are all expired. */
  lemma CleanupIsInvisible(cfg: Config, w: World, run: seq<Label>)
    requires Initial(w) && Legal(With(cfg), w, run)
    ensures Legal(Without(cfg), w, run)
    ensures Responses(With(cfg), w, run) == Responses(Without(cfg), w, run)
    ensures SameBut(Run(With(cfg), w, run).sys, Run(Without(cfg), w, run).sys, Run(With(cfg), w, run).now)
  {
    InitialHolds(With(cfg), w);
    InitialHolds(Without(cfg), w);
    RunsAgree(cfg, w, w, run);
  }
}
