/** How long the tokens of a pair serve: exactly their configured lifetimes, to within the second their `exp` loses. */
module Lifetimes {
  import opened Types
  import opened Jwt
  import opened Requests
  import opened Machine
  import opened Invariants
  import opened Acceptance

  predicate Issuing(l: Label) {
    l.LoginCall? || l.RefreshCall?
  }

  function TimesOf(l: Label): IssueTimes
    requires Issuing(l)
  {
    if l.LoginCall? then l.times else l.at.issue
  }

  /** The account a request that issues a pair authenticates. */
  function Owner(cfg: Config, s: Sys, l: Label): Option<UserId>
    requires Issuing(l)
  {
    if l.LoginCall? then
      var who := Authenticate(cfg, s.store.users, s.tally, l.email, l.password, l.fault).1;
      if who.Ok? then Some(who.value) else None
    else
      var j := Judge(s, l.raw, l.at);
      if j.Fit? then Some(j.user) else None
  }

  lemma PairIsOwners(cfg: Config, s: Sys, l: Label)
    requires Issuing(l) && Respond(cfg, s, l).1.Ok?
    ensures Owner(cfg, s, l).Some?
    ensures Respond(cfg, s, l).1.value == Tokens(NewPair(cfg, Owner(cfg, s, l).value, TimesOf(l), l.jti))
  {
  }

  /** What a request that issued a pair has left behind. */
  lemma IssuedIsUnspent(cfg: Config, w: World, l: Label)
    requires Inv(cfg, w) && Enabled(w, l) && Issuing(l) && Respond(cfg, w.sys, l).1.Ok?
    ensures Owner(cfg, w.sys, l).Some?
    ensures var v, user := Next(cfg, w, l), Owner(cfg, w.sys, l).value;
            && l.jti in v.hist.grants && l.jti !in v.hist.successor
            && v.hist.grants[l.jti].claims == RefreshClaims(cfg, user, l.jti, TimesOf(l).refresh)
            && v.hist.grants[l.jti].rowExpiry == TimesOf(l).row + cfg.RefreshLifetime()
            && AccessClaims(cfg, user, TimesOf(l).access) in v.sys.signed
  {
    FreshIsUnknown(cfg, w, l.jti);
    if l.LoginCall? {
      LoginHandsOut(cfg, w, l);
    } else {
      RefreshHandsOut(cfg, w, l);
      ExchangeFacts(cfg, w, l);
    }
  }

  lemma StepSigns(cfg: Config, s: Sys, l: Label)
    requires l.SeedCall? ==> |l.ids| == |l.fixtures|
    ensures s.signed <= Respond(cfg, s, l).0.signed
  {
  }

  lemma {:induction false} SignedStaysSigned(cfg: Config, w: World, run: seq<Label>)
    requires Legal(cfg, w, run)
    ensures w.sys.signed <= Run(cfg, w, run).sys.signed
    decreases |run|
  {
    if run != [] {
      StepSigns(cfg, w.sys, run[0]);
      SignedStaysSigned(cfg, Next(cfg, w, run[0]), run[1..]);
    }
  }

  ghost predicate Active(w: World, user: UserId) {
    user in w.sys.store.users && w.sys.store.users[user].active
  }

  /** After any run in which it is not exchanged and its row not removed, the refresh token of a pair is good
      for the configured lifetime, less at most the second `exp` loses, while its account is active and unless
      the request reads the clock again after the row's expiry; at the end of the lifetime it is not. */
  lemma RefreshTokenServes(cfg: Config, w: World, l: Label, between: seq<Label>, again: Label)
    requires Inv(cfg, w) && Enabled(w, l) && Issuing(l) && Respond(cfg, w.sys, l).1.Ok?
    requires Legal(cfg, Next(cfg, w, l), between)
    requires Respond(cfg, w.sys, l).1.value.Tokens?
    requires var v := Run(cfg, Next(cfg, w, l), between);
             && Enabled(v, again) && again.RefreshCall? && again.fault.None?
             && again.raw == Respond(cfg, w.sys, l).1.value.pair.refresh
             && Exchanges(cfg, Next(cfg, w, l), between, l.jti) == 0 && l.jti !in v.hist.dropped
             && Owner(cfg, w.sys, l).Some? && Active(v, Owner(cfg, w.sys, l).value)
    ensures var lifetime := cfg.refreshDays * 24 * 60 * 60 * 1_000_000;
            var end, rowEnd := TimesOf(l).refresh + lifetime, TimesOf(l).row + lifetime;
            var r := Respond(cfg, Run(cfg, Next(cfg, w, l), between).sys, again).1;
            && (again.at.decode + 1_000_000 <= end ==> (r.Ok? <==> again.at.check <= rowEnd))
            && (again.at.decode >= end ==> r == Refused(Unauthorized("Invalid refresh token.")))
  {
    PairIsOwners(cfg, w.sys, l);
    StillUnspent(cfg, w, l, between);
    UnspentServes(cfg, Run(cfg, Next(cfg, w, l), between), again, Owner(cfg, w.sys, l).value, TimesOf(l), l.jti);
  }

  lemma StillUnspent(cfg: Config, w: World, l: Label, between: seq<Label>)
    requires Inv(cfg, w) && Enabled(w, l) && Issuing(l) && Respond(cfg, w.sys, l).1.Ok?
    requires Legal(cfg, Next(cfg, w, l), between) && Exchanges(cfg, Next(cfg, w, l), between, l.jti) == 0
    ensures Owner(cfg, w.sys, l).Some?
    ensures var v := Run(cfg, Next(cfg, w, l), between);
            && Inv(cfg, v) && l.jti in v.hist.grants && l.jti !in v.hist.successor
            && v.hist.grants[l.jti].claims == RefreshClaims(cfg, Owner(cfg, w.sys, l).value, l.jti, TimesOf(l).refresh)
            && v.hist.grants[l.jti].rowExpiry == TimesOf(l).row + cfg.RefreshLifetime()
  {
    IssuedIsUnspent(cfg, w, l);
    NextKeeps(cfg, w, l);
    HistoryGrows(cfg, Next(cfg, w, l), between, l.jti);
    RunKeeps(cfg, Next(cfg, w, l), between);
  }

  lemma UnspentServes(cfg: Config, v: World, again: Label, user: UserId, t: IssueTimes, jti: Jti)
    requires Inv(cfg, v) && Enabled(v, again) && again.RefreshCall? && again.fault.None?
    requires again.raw == Encoded(RefreshClaims(cfg, user, jti, t.refresh)) && t.Ordered() && Active(v, user)
    requires jti in v.hist.grants && jti !in v.hist.successor && jti !in v.hist.dropped
    requires v.hist.grants[jti].claims == again.raw.claims
             && v.hist.grants[jti].rowExpiry == t.row + cfg.RefreshLifetime()
    ensures var end, r := t.refresh + cfg.RefreshLifetime(), Respond(cfg, v.sys, again).1;
            && (again.at.decode + SECOND <= end ==> (r.Ok? <==> again.at.check <= t.row + cfg.RefreshLifetime()))
            && (again.at.decode >= end ==> r == Refused(Unauthorized("Invalid refresh token.")))
  {
    RefreshEnds(cfg, user, jti, t);
    AcceptedExactlyWhen(cfg, v, again);
    if again.at.decode >= t.refresh + cfg.RefreshLifetime() {
      BadTokenRefused(cfg, v.sys, again);
    }
  }

  lemma RefreshEnds(cfg: Config, user: UserId, jti: Jti, t: IssueTimes)
    requires t.Ordered()
    ensures var end := t.refresh + cfg.RefreshLifetime();
            end - SECOND < RefreshClaims(cfg, user, jti, t.refresh).exp <= end <= NewRow(cfg, user, t).expiresAt
  {
  }

  lemma BadTokenRefused(cfg: Config, s: Sys, l: Label)
    requires l.RefreshCall? && l.fault.None? && Decode(s.signed, l.raw, l.at.decode).None?
    ensures Respond(cfg, s, l).1 == Refused(Unauthorized("Invalid refresh token."))
  {
  }

  /** The refresh that decodes the token of a pair at once and reads the clock again after its row's expiry. */
  function Straddling(cfg: Config, l: Label, pair: TokenPair, jti: Jti): Label
    requires Issuing(l)
  {
    var late := TimesOf(l).row + cfg.RefreshLifetime() + 1;
    RefreshCall(pair.refresh, RefreshTimes(TimesOf(l).row, late, late, late, IssueTimes(late, late, late)), jti, None)
  }

  /** "Refresh token has expired." does happen: right after any pair is issued, with a lifetime of a day or more,
      to a request that stalls that long between its two readings. */
  lemma ExpiredRefusalHappens(cfg: Config, w: World, l: Label, jti: Jti)
    requires Inv(cfg, w) && Enabled(w, l) && Issuing(l) && Respond(cfg, w.sys, l).1.Ok?
    requires Respond(cfg, w.sys, l).1.value.Tokens? && jti !in Next(cfg, w, l).hist.drawn
    requires TimesOf(l).row + SECOND <= TimesOf(l).refresh + cfg.RefreshLifetime()
    ensures var again := Straddling(cfg, l, Respond(cfg, w.sys, l).1.value.pair, jti);
            && Enabled(Next(cfg, w, l), again)
            && Respond(cfg, Next(cfg, w, l).sys, again).1 == Refused(Unauthorized("Refresh token has expired."))
  {
    var v, again := Next(cfg, w, l), Straddling(cfg, l, Respond(cfg, w.sys, l).1.value.pair, jti);
    PairIsOwners(cfg, w.sys, l);
    IssuedIsUnspent(cfg, w, l);
    NextKeeps(cfg, w, l);
    RefreshEnds(cfg, Owner(cfg, w.sys, l).value, l.jti, TimesOf(l));
    assert l.jti !in v.hist.dropped by {
      FreshIsUnknown(cfg, w, l.jti);
    }
    ExpiredRefusalStraddles(cfg, v, again);
  }

  /** After any run at all, the access token of a pair stands for its account for the configured minutes,
      which the response gives as `expires_in` seconds, less at most the second `exp` loses, while the account is
      active; at the end of the lifetime it does not. Neither logging in again nor refreshing shortens it. */
  lemma AccessTokenServes(cfg: Config, w: World, l: Label, between: seq<Label>, now: Instant, fault: Option<nat>)
    requires Inv(cfg, w) && Enabled(w, l) && Issuing(l) && Respond(cfg, w.sys, l).1.Ok?
    requires Legal(cfg, Next(cfg, w, l), between)
    ensures Respond(cfg, w.sys, l).1.value.Tokens? && Owner(cfg, w.sys, l).Some?
    ensures var v, pair := Run(cfg, Next(cfg, w, l), between), Respond(cfg, w.sys, l).1.value.pair;
            && pair.expiresIn == cfg.accessMinutes * 60
            && Serves(v.sys, pair.access, now, fault, Owner(cfg, w.sys, l).value,
                      TimesOf(l).access + pair.expiresIn * 1_000_000)
  {
    PairIsOwners(cfg, w.sys, l);
    IssuedIsUnspent(cfg, w, l);
    SignedStaysSigned(cfg, Next(cfg, w, l), between);
    CurrentUserOf(cfg, Run(cfg, Next(cfg, w, l), between).sys, Owner(cfg, w.sys, l).value, TimesOf(l).access, now,
                  fault);
  }

  /** The access token, presented at `now`, stands for the account until `end`, unless the lookup raises. */
  predicate Serves(s: Sys, access: RawToken, now: Instant, fault: Option<nat>, user: UserId, end: Instant) {
    var r, refusal := CurrentUser(s, access, now, fault), Refused(Unauthorized("Could not validate credentials."));
    && (now + 1_000_000 <= end ==>
          r == if fault == Some(0) then Crashed
               else if user in s.store.users && s.store.users[user].active then Ok(user)
               else refusal)
    && (now >= end ==> r == refusal)
  }

  lemma CurrentUserOf(cfg: Config, s: Sys, user: UserId, at: Instant, now: Instant, fault: Option<nat>)
    requires AccessClaims(cfg, user, at) in s.signed
    ensures Serves(s, Encoded(AccessClaims(cfg, user, at)), now, fault, user, at + cfg.AccessLifetime())
  {
  }
}
