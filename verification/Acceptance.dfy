/** Which refresh tokens are accepted, told from the history alone; what a refusal means and leaves. */
module Acceptance {
  import opened Types
  import opened Jwt
  import opened Requests
  import opened Machine
  import opened Invariants

  /** The caller presents, unaltered, a refresh token this service handed out. */
  ghost predicate Presents(w: World, raw: RawToken) {
    && raw.Encoded? && raw.claims.jti.Some? && raw.claims.jti.value in w.hist.grants
    && w.hist.grants[raw.claims.jti.value].claims == raw.claims
  }

  /** ... one never exchanged, whose row no administrator removed. */
  ghost predicate Unspent(w: World, raw: RawToken) {
    Presents(w, raw) && raw.claims.jti.value !in w.hist.successor && raw.claims.jti.value !in w.hist.dropped
  }

  ghost predicate OwnerActive(w: World, raw: RawToken) {
    && raw.Encoded? && raw.claims.sub.Some? && raw.claims.sub.value in w.sys.store.users
    && w.sys.store.users[raw.claims.sub.value].active
  }

  ghost predicate LiveAt(raw: RawToken, now: Instant) {
    raw.Encoded? && now < raw.claims.exp
  }

  ghost predicate SignedRefresh(w: World, raw: RawToken) {
    raw.Encoded? && raw.claims in w.sys.signed && raw.claims.kind.Refresh?
  }

  ghost predicate RowOutlives(w: World, raw: RawToken, check: Instant)
    requires Presents(w, raw)
  {
    check <= w.hist.grants[raw.claims.jti.value].rowExpiry
  }

  /** For a live refresh JWT, an unrevoked row in the store and an unspent token in the history are one
      thing, and the row names the later expiry. */
  ghost predicate RowTells(w: World, raw: RawToken) {
    && (Presents(w, raw) ==> SignedRefresh(w, raw))
    && (SignedRefresh(w, raw) && LiveAt(raw, w.now) ==>
         && raw.claims.jti.Some? && raw.claims.sub.Some?
         && var h := Sha256(raw.claims.jti.value);
            && (Unspent(w, raw) <==> h in w.sys.store.tokens && w.sys.store.tokens[h].revokedAt.None?)
            && (Unspent(w, raw) ==>
                  raw.claims.exp <= w.hist.grants[raw.claims.jti.value].rowExpiry == w.sys.store.tokens[h].expiresAt))
  }

  lemma RowTellsAlways(cfg: Config, w: World, raw: RawToken)
    requires Inv(cfg, w)
    ensures RowTells(w, raw)
  {
    if SignedRefresh(w, raw) && LiveAt(raw, w.now) {
      var h := Sha256(raw.claims.jti.value);
      assert h.jti == raw.claims.jti.value;
      if h in w.sys.store.tokens {
        assert w.hist.grants[h.jti].claims in w.sys.signed;
      }
    }
  }

  /** The six outcomes of the guards, each in terms of what has happened. `BadSubject` is not among them. */
  ghost predicate Verdict(w: World, raw: RawToken, t: RefreshTimes, j: Judgement) {
    && (j.BadToken? <==> !(SignedRefresh(w, raw) && LiveAt(raw, t.decode)))
    && (j.NoRow? <==> SignedRefresh(w, raw) && LiveAt(raw, t.decode) && !Unspent(w, raw))
    && (j.Outdated? <==> Unspent(w, raw) && LiveAt(raw, t.decode) && !RowOutlives(w, raw, t.check))
    && (j.NoAccount? <==>
        Unspent(w, raw) && LiveAt(raw, t.decode) && RowOutlives(w, raw, t.check) && !OwnerActive(w, raw))
    && (j.Fit? <==> Unspent(w, raw) && LiveAt(raw, t.decode) && RowOutlives(w, raw, t.check) && OwnerActive(w, raw))
    && !j.BadSubject?
  }

  lemma JudgedByRow(w: World, raw: RawToken, t: RefreshTimes)
    requires RowTells(w, raw) && w.now <= t.decode
    ensures Verdict(w, raw, t, Judge(w.sys, raw, t))
  {
    if SignedRefresh(w, raw) && LiveAt(raw, t.decode) {
      assert Decode(w.sys.signed, raw, t.decode) == Some(raw.claims);
    }
  }

  lemma JudgedByHistory(cfg: Config, w: World, raw: RawToken, t: RefreshTimes)
    requires Inv(cfg, w) && t.Ordered() && w.now <= t.decode
    ensures Verdict(w, raw, t, Judge(w.sys, raw, t))
  {
    RowTellsAlways(cfg, w, raw);
    JudgedByRow(w, raw, t);
  }

  lemma SucceedsWhenFit(cfg: Config, s: Sys, l: Label)
    requires l.RefreshCall? && Sha256(l.jti) !in s.store.tokens
    ensures Respond(cfg, s, l).1.Ok? <==> Judge(s, l.raw, l.at).Fit? && !Fails(l.fault, 6)
  {
  }

  /** A refresh succeeds exactly when it presents an unspent token before its `exp`, within the row's
      life, for an active account, and no database call of it raises. */
  lemma AcceptedExactlyWhen(cfg: Config, w: World, l: Label)
    requires Inv(cfg, w) && Enabled(w, l) && l.RefreshCall?
    ensures Respond(cfg, w.sys, l).1.Ok? <==>
            && Unspent(w, l.raw) && LiveAt(l.raw, l.at.decode) && RowOutlives(w, l.raw, l.at.check)
               && OwnerActive(w, l.raw)
            && !Fails(l.fault, 6)
  {
    FreshIsUnknown(cfg, w, l.jti);
    SucceedsWhenFit(cfg, w.sys, l);
    JudgedByHistory(cfg, w, l.raw, l.at);
  }

  // ---- what a refresh answers ----------------------------------------------------------------------

  /** One of the first n database calls of the request raises. */
  predicate RaisesWithin(fault: Option<nat>, n: nat) {
    fault.Some? && fault.value < n
  }

  lemma MessagesDiffer()
    ensures "Invalid refresh token." != "Refresh token has been revoked."
    ensures "Invalid refresh token." != "Refresh token has expired."
    ensures "Invalid refresh token." != "Account is unavailable."
    ensures "Refresh token has been revoked." != "Refresh token has expired."
    ensures "Refresh token has been revoked." != "Account is unavailable."
    ensures "Refresh token has expired." != "Account is unavailable."
  {
    assert "Account is unavailable."[0] == 'A' && "Invalid refresh token."[0] == 'I';
    assert "Refresh token has been revoked."[0] == 'R' && "Refresh token has expired."[0] == 'R';
    assert |"Refresh token has been revoked."| == 31 && |"Refresh token has expired."| == 26;
  }

  /** Each answer in terms of the guard that gave it. */
  lemma AnswersByJudgement(cfg: Config, s: Sys, l: Label)
    requires l.RefreshCall? && Sha256(l.jti) !in s.store.tokens && !Judge(s, l.raw, l.at).BadSubject?
    ensures var r, j := Respond(cfg, s, l).1, Judge(s, l.raw, l.at);
            && (r == Refused(Unauthorized("Invalid refresh token.")) <==> j.BadToken?)
            && (r == Refused(Unauthorized("Refresh token has been revoked.")) <==>
                j.NoRow? && !RaisesWithin(l.fault, 1))
            && (r == Refused(Unauthorized("Refresh token has expired.")) <==> j.Outdated? && !RaisesWithin(l.fault, 1))
            && (r == Refused(Unauthorized("Account is unavailable.")) <==> j.NoAccount? && !RaisesWithin(l.fault, 2))
            && (r.Ok? <==> j.Fit? && !RaisesWithin(l.fault, 6))
            && (r == Crashed <==>
                || ((j.NoRow? || j.Outdated?) && RaisesWithin(l.fault, 1))
                || (j.NoAccount? && RaisesWithin(l.fault, 2))
                || (j.Fit? && RaisesWithin(l.fault, 6)))
  {
    MessagesDiffer();
  }

  /** The token presented is a refresh JWT signed here, decoded before its `exp`, but spent: exchanged, never
      committed, or its row removed. */
  ghost predicate LiveButSpent(w: World, l: Label)
    requires l.RefreshCall?
  {
    SignedRefresh(w, l.raw) && LiveAt(l.raw, l.at.decode) && !Unspent(w, l.raw)
  }

  /** The token presented is unspent and was decoded before its `exp`. */
  ghost predicate LiveUnspent(w: World, l: Label)
    requires l.RefreshCall?
  {
    Unspent(w, l.raw) && LiveAt(l.raw, l.at.decode)
  }

  /** What a refresh answers, each answer by its literal message exactly when what has happened calls for it. */
  ghost predicate AnswersByHistory(w: World, l: Label, r: Result<Reply>)
    requires l.RefreshCall?
  {
    && (r == Refused(Unauthorized("Invalid refresh token.")) <==>
          !(SignedRefresh(w, l.raw) && LiveAt(l.raw, l.at.decode)))
    && (r == Refused(Unauthorized("Refresh token has been revoked.")) <==>
          LiveButSpent(w, l) && !RaisesWithin(l.fault, 1))
    && (r == Refused(Unauthorized("Refresh token has expired.")) <==>
          LiveUnspent(w, l) && !RowOutlives(w, l.raw, l.at.check) && !RaisesWithin(l.fault, 1))
    && (r == Refused(Unauthorized("Account is unavailable.")) <==>
          LiveUnspent(w, l) && RowOutlives(w, l.raw, l.at.check) && !OwnerActive(w, l.raw) && !RaisesWithin(l.fault, 2))
    && (r.Ok? <==>
          LiveUnspent(w, l) && RowOutlives(w, l.raw, l.at.check) && OwnerActive(w, l.raw) && !RaisesWithin(l.fault, 6))
    && (r == Crashed <==>
          || (LiveButSpent(w, l) && RaisesWithin(l.fault, 1))
          || (LiveUnspent(w, l) && !RowOutlives(w, l.raw, l.at.check) && RaisesWithin(l.fault, 1))
          || (LiveUnspent(w, l) && RowOutlives(w, l.raw, l.at.check)
              && RaisesWithin(l.fault, if OwnerActive(w, l.raw) then 6 else 2)))
  }

  lemma RefreshAnswers(cfg: Config, w: World, l: Label)
    requires Inv(cfg, w) && Enabled(w, l) && l.RefreshCall?
    ensures AnswersByHistory(w, l, Respond(cfg, w.sys, l).1)
  {
    FreshIsUnknown(cfg, w, l.jti);
    JudgedByHistory(cfg, w, l.raw, l.at);
    AnswersByJudgement(cfg, w.sys, l);
  }

  /** "Refresh token has expired." is the answer exactly to a request that presents an unspent token, decodes the
      JWT before its `exp` and then reads the clock after the row's later expiry, its lookup not raising; with one
      clock reading it never is. */
  lemma ExpiredRefusalStraddles(cfg: Config, w: World, l: Label)
    requires Inv(cfg, w) && Enabled(w, l) && l.RefreshCall?
    ensures var r := Respond(cfg, w.sys, l).1;
            && (r == Refused(Unauthorized("Refresh token has expired.")) <==>
                  && Unspent(w, l.raw) && l.fault != Some(0)
                  && l.at.decode < l.raw.claims.exp <= w.hist.grants[l.raw.claims.jti.value].rowExpiry < l.at.check)
            && (l.at.decode == l.at.check ==> r != Refused(Unauthorized("Refresh token has expired.")))
  {
    RefreshAnswers(cfg, w, l);
    if Unspent(w, l.raw) {
      ExpBeforeRow(cfg, w, l.raw);
    }
  }

  lemma ExpBeforeRow(cfg: Config, w: World, raw: RawToken)
    requires GrantsSigned(cfg, w) && Presents(w, raw)
    ensures raw.claims.exp <= w.hist.grants[raw.claims.jti.value].rowExpiry
  {
  }

  // ---- a refusal consumes nothing ------------------------------------------------------------------

  /** The number of times a run exchanges the token `j`. */
  function Exchanges(cfg: Config, w: World, run: seq<Label>, j: Jti): nat
    requires Legal(cfg, w, run)
    decreases |run|
  {
    if run == [] then 0
    else
      (if run[0].RefreshCall? && run[0].raw.Encoded? && run[0].raw.claims.jti == Some(j)
          && Respond(cfg, w.sys, run[0]).1.Ok? then 1 else 0)
      + Exchanges(cfg, Next(cfg, w, run[0]), run[1..], j)
  }

  /** History only grows; a token is exchanged at the end if it was before or the run exchanged it. */
  lemma {:induction false} HistoryGrows(cfg: Config, w: World, run: seq<Label>, j: Jti)
    requires Inv(cfg, w) && Legal(cfg, w, run) && j in w.hist.grants
    ensures var v := Run(cfg, w, run);
            && w.now <= v.now && j in v.hist.grants && v.hist.grants[j] == w.hist.grants[j]
            && (j in w.hist.successor ==> j in v.hist.successor && v.hist.successor[j] == w.hist.successor[j])
            && w.hist.dropped <= v.hist.dropped
            && (j in v.hist.successor <==> j in w.hist.successor || Exchanges(cfg, w, run, j) > 0)
    decreases |run|
  {
    if run != [] {
      var w' := Next(cfg, w, run[0]);
      NextKeeps(cfg, w, run[0]);
      StepGrows(cfg, w, run[0], j);
      HistoryGrows(cfg, w', run[1..], j);
    }
  }

  lemma HandoutGrows(cfg: Config, w: World, w': World, user: UserId, t: IssueTimes, jti: Jti, parent: Option<Jti>,
                     mid: map<JtiHash, Row>, j: Jti)
    requires Handout(cfg, w, w', user, t, jti, parent, mid) && Exchangeable(w, user, parent)
    requires j in w.hist.grants && j in w.hist.drawn
    ensures j in w'.hist.grants && w'.hist.grants[j] == w.hist.grants[j]
    ensures j in w.hist.successor ==> j in w'.hist.successor && w'.hist.successor[j] == w.hist.successor[j]
    ensures j in w'.hist.successor <==> j in w.hist.successor || parent == Some(j)
  {
  }

  lemma StepGrows(cfg: Config, w: World, l: Label, j: Jti)
    requires Inv(cfg, w) && Enabled(w, l) && j in w.hist.grants
    ensures var v := Next(cfg, w, l);
            && w.now <= v.now && j in v.hist.grants && v.hist.grants[j] == w.hist.grants[j]
            && (j in w.hist.successor ==> j in v.hist.successor && v.hist.successor[j] == w.hist.successor[j])
            && w.hist.dropped <= v.hist.dropped
            && (j in v.hist.successor <==>
                  j in w.hist.successor
                  || (l.RefreshCall? && l.raw.Encoded? && l.raw.claims.jti == Some(j) && Respond(cfg, w.sys, l).1.Ok?))
  {
    if l.RefreshCall? && Respond(cfg, w.sys, l).1.Ok? {
      RefreshHandsOut(cfg, w, l);
      HandoutGrows(cfg, w, Next(cfg, w, l), Judge(w.sys, l.raw, l.at).user, l.at.issue, l.jti, l.raw.claims.jti,
                   RowsBeforeInsert(cfg, w, l), j);
    } else if l.LoginCall? && Respond(cfg, w.sys, l).1.Ok? {
      LoginHandsOut(cfg, w, l);
      HandoutGrows(cfg, w, Next(cfg, w, l),
                   Authenticate(cfg, w.sys.store.users, w.sys.tally, l.email, l.password, l.fault).1.value,
                   l.times, l.jti, None, w.sys.store.tokens, j);
    }
  }

  /** A token refused because its account was inactive or gone stays good: whatever runs in between,
      unless it exchanges the token or removes its row, a later refresh before the `exp` succeeds as
      soon as the account is active. */
  lemma RefusalConsumesNothing(cfg: Config, w: World, refused: Label, between: seq<Label>, again: Label)
    requires Inv(cfg, w) && Enabled(w, refused) && refused.RefreshCall? && again.RefreshCall?
             && again.raw == refused.raw
    requires Respond(cfg, w.sys, refused).1 == Refused(Unauthorized("Account is unavailable."))
    requires Legal(cfg, Next(cfg, w, refused), between)
    requires var v := Run(cfg, Next(cfg, w, refused), between);
             && Exchanges(cfg, Next(cfg, w, refused), between, refused.raw.claims.jti.value) == 0
             && refused.raw.claims.jti.value !in v.hist.dropped
             && Enabled(v, again) && again.fault.None? && OwnerActive(v, again.raw)
             && again.at.decode < again.raw.claims.exp
             && (Presents(v, again.raw) ==> RowOutlives(v, again.raw, again.at.check))
    ensures Respond(cfg, Run(cfg, Next(cfg, w, refused), between).sys, again).1.Ok?
  {
    var w' := Next(cfg, w, refused);
    var v := Run(cfg, w', between);
    RefusedLeaves(cfg, w, refused);
    NextKeeps(cfg, w, refused);
    HistoryGrows(cfg, w', between, refused.raw.claims.jti.value);
    RunKeeps(cfg, w', between);
    AcceptedExactlyWhen(cfg, v, again);
  }

  lemma RefusedLeaves(cfg: Config, w: World, l: Label)
    requires Inv(cfg, w) && Enabled(w, l) && l.RefreshCall?
    requires Respond(cfg, w.sys, l).1 == Refused(Unauthorized("Account is unavailable."))
    ensures Unspent(w, l.raw)
    ensures Next(cfg, w, l).sys.store == w.sys.store && Next(cfg, w, l).hist == w.hist.(drawn := w.hist.drawn + {l.jti})
  {
    RefreshAnswers(cfg, w, l);
    FailureCommitsNothing(cfg, w.sys, l);
  }

  // ---- access tokens -------------------------------------------------------------------------------

  /** An access token stands for its account exactly while unexpired and the account active, unless the lookup
      of the account raises, and is refused otherwise; a staff route turns away exactly the accounts that are not
      staff. No token opens both the protected routes and the refresh endpoint. */
  lemma AccessExactlyWhen(cfg: Config, w: World, raw: RawToken, t: RefreshTimes, fault: Option<nat>)
    requires Inv(cfg, w) && t.Ordered() && w.now <= t.decode
    ensures var r, staff := CurrentUser(w.sys, raw, t.decode, fault), Superuser(w.sys, raw, t.decode, fault);
            var good := raw.Encoded? && raw.claims in w.sys.signed && raw.claims.kind.Access? && LiveAt(raw, t.decode);
            && (r.Ok? <==> good && OwnerActive(w, raw) && fault != Some(0))
            && (r == Crashed <==> good && fault == Some(0))
            && (!r.Ok? && r != Crashed ==> r == Refused(Unauthorized("Could not validate credentials.")))
            && (r.Ok? ==> raw.claims.sub == Some(r.value) && Judge(w.sys, raw, t).BadToken?)
            && (if r.Ok? && !w.sys.store.users[r.value].superuser
                then staff == Refused(Forbidden("Staff privileges are required.")) else staff == r)
  {
    JudgedByHistory(cfg, w, raw, t);
  }
}
