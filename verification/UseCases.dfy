/** The use cases, step by step over their repositories, proved against the functions of `Requests`. */
module UseCases {
  import opened Types
  import opened Jwt
  import opened Requests
  import opened Databases
  import opened Repositories

  /** The process-wide counters. */
  class Metrics {
    var tally: Tally

    constructor ()
      ensures tally == Tally(0, 0, 0, 0, 0)
    {
      tally := Tally(0, 0, 0, 0, 0);
    }
  }

  class IssueTokenPair {
    const cfg: Config
    const signer: Signer
    const tokenRepo: RefreshTokenRepository

    constructor (cfg: Config, signer: Signer, tokenRepo: RefreshTokenRepository)
      ensures this.cfg == cfg && this.signer == signer && this.tokenRepo == tokenRepo
    {
      this.cfg := cfg;
      this.signer := signer;
      this.tokenRepo := tokenRepo;
    }

    method Execute(user: UserId, t: IssueTimes, jti: Jti) returns (r: Result<TokenPair>)
      modifies signer, tokenRepo.session`calls, tokenRepo.session`working
      ensures tokenRepo.session.calls == old(tokenRepo.session.calls) + 1
      ensures (tokenRepo.session.working, signer.signed, r) ==
              Issue(cfg, old(tokenRepo.session.working), old(signer.signed), user, t, jti,
                    tokenRepo.session.fault, old(tokenRepo.session.calls))
    {
      var access := signer.CreateToken(cfg, user, Access, None, None, t.access);
      var refresh :- CreateRefresh(user, t, jti);
      return Ok(TokenPair(access, refresh, cfg.accessMinutes * 60));
    }

    method CreateRefresh(user: UserId, t: IssueTimes, jti: Jti) returns (r: Result<RawToken>)
      modifies signer, tokenRepo.session`calls, tokenRepo.session`working
      ensures signer.signed == old(signer.signed) + {RefreshClaims(cfg, user, jti, t.refresh)}
      ensures tokenRepo.session.calls == old(tokenRepo.session.calls) + 1
      ensures r == if tokenRepo.session.fault == Some(old(tokenRepo.session.calls))
                      || Sha256(jti) in old(tokenRepo.session.working.tokens)
                      || user !in old(tokenRepo.session.working.users)
                   then Crashed else Ok(Encoded(RefreshClaims(cfg, user, jti, t.refresh)))
      ensures tokenRepo.session.working == if r.Ok?
                then old(tokenRepo.session.working).(
                     tokens := old(tokenRepo.session.working.tokens)[Sha256(jti) := NewRow(cfg, user, t)])
                else old(tokenRepo.session.working)
    {
      var token := signer.CreateToken(cfg, user, Refresh, Some(cfg.RefreshLifetime()), Some(jti), t.refresh);
      var _ :- tokenRepo.Create(user, Sha256(jti), t.row + cfg.RefreshLifetime());
      return Ok(token);
    }
  }

  class RefreshAccessToken {
    const cfg: Config
    const signer: Signer
    const metrics: Metrics
    const userRepo: UserRepository
    const tokenRepo: RefreshTokenRepository

    constructor (
      cfg: Config, signer: Signer, metrics: Metrics, userRepo: UserRepository, tokenRepo: RefreshTokenRepository)
      requires userRepo.session == tokenRepo.session
      ensures this.cfg == cfg && this.signer == signer && this.metrics == metrics
      ensures this.userRepo == userRepo && this.tokenRepo == tokenRepo
    {
      this.cfg := cfg;
      this.signer := signer;
      this.metrics := metrics;
      this.userRepo := userRepo;
      this.tokenRepo := tokenRepo;
    }

    method Execute(raw: RawToken, t: RefreshTimes, jti: Jti) returns (r: Result<TokenPair>)
      requires cfg.cleanup
      requires userRepo.session == tokenRepo.session && tokenRepo.session.calls == 0
      modifies signer, metrics, tokenRepo.session`calls, tokenRepo.session`working
      ensures var (s, result) :=
              Rotate(cfg, Sys(old(tokenRepo.session.working), old(signer.signed), old(metrics.tally)),
                                        raw, t, jti, tokenRepo.session.fault);
              && r == result && signer.signed == s.signed && metrics.tally == s.tally
              && (r.Ok? ==> tokenRepo.session.working == s.store && tokenRepo.session.calls == 5)
    {
      var payload := signer.DecodeToken(raw, t.decode);
      if payload.None? {
        CountFailure();
        return Refused(Unauthorized("Invalid refresh token."));
      }
      var claims := payload.value;
      if !claims.kind.Refresh? || claims.jti.None? {
        CountFailure();
        return Refused(Unauthorized("Invalid refresh token."));
      }

      var h := Sha256(claims.jti.value);
      var stored :- tokenRepo.GetByJtiHash(h);
      if stored.None? || stored.value.revokedAt.Some? {
        CountFailure();
        return Refused(Unauthorized("Refresh token has been revoked."));
      }
      if stored.value.expiresAt < t.check {
        CountFailure();
        return Refused(Unauthorized("Refresh token has expired."));
      }

      if claims.sub.None? {
        CountFailure();
        return Refused(Unauthorized("Invalid refresh token."));
      }
      var user :- userRepo.GetById(claims.sub.value);
      if user.None? || !user.value.active {
        CountFailure();
        return Refused(Unauthorized("Account is unavailable."));
      }

      r := Exchange(h, claims.sub.value, t, jti);
    }

    /** The last steps of `execute`, on a token and account that passed every guard. */
    method Exchange(h: JtiHash, user: UserId, t: RefreshTimes, jti: Jti) returns (r: Result<TokenPair>)
      requires cfg.cleanup && h in tokenRepo.session.working.tokens && tokenRepo.session.calls == 2
      modifies signer, metrics, tokenRepo.session`calls, tokenRepo.session`working
      ensures if tokenRepo.session.fault == Some(2) || tokenRepo.session.fault == Some(3)
              then r == Crashed && signer.signed == old(signer.signed) && metrics.tally == old(metrics.tally)
              else var rows := Swept(cfg, Revoked(old(tokenRepo.session.working.tokens), h, t.revoke), t.cleanup);
                   && (tokenRepo.session.working, signer.signed, r) ==
                      Issue(cfg, old(tokenRepo.session.working).(tokens := rows), old(signer.signed), user, t.issue,
                            jti,
                            tokenRepo.session.fault, 4)
                   && metrics.tally == old(metrics.tally).(refreshSuccess := old(metrics.tally).refreshSuccess + 1)
      ensures r.Ok? ==> tokenRepo.session.calls == 5
    {
      var _ :- tokenRepo.Revoke(h, t.revoke);
      var _ :- tokenRepo.CleanupExpired(cfg, t.cleanup);
      metrics.tally := metrics.tally.(refreshSuccess := metrics.tally.refreshSuccess + 1);
      var issue := new IssueTokenPair(cfg, signer, tokenRepo);
      r := issue.Execute(user, t.issue, jti);
    }

    method CountFailure()
      modifies metrics
      ensures metrics.tally == old(metrics.tally).(refreshFailure := old(metrics.tally).refreshFailure + 1)
    {
      metrics.tally := metrics.tally.(refreshFailure := metrics.tally.refreshFailure + 1);
    }
  }

  class AuthenticateUser {
    const cfg: Config
    const metrics: Metrics
    const userRepo: UserRepository

    constructor (cfg: Config, metrics: Metrics, userRepo: UserRepository)
      ensures this.cfg == cfg && this.metrics == metrics && this.userRepo == userRepo
    {
      this.cfg := cfg;
      this.metrics := metrics;
      this.userRepo := userRepo;
    }

    /** Reading the password and the active flag of a loaded account takes no further round trip. */
    method Execute(email: string, password: string) returns (r: Result<UserId>)
      requires userRepo.session.calls == 0
      modifies metrics, userRepo.session`calls
      ensures (metrics.tally, r)
              == Authenticate(cfg, userRepo.session.working.users, old(metrics.tally), email, password,
                                                 userRepo.session.fault)
      ensures userRepo.session.calls == 1
    {
      var found :- userRepo.GetByEmail(cfg, email);
      if found.None? || userRepo.session.working.users[found.value].password != Argon2(password) {
        CountFailure();
        return Refused(Unauthorized("Incorrect email or password."));
      }
      if !userRepo.session.working.users[found.value].active {
        CountFailure();
        return Refused(Unauthorized("This account is inactive."));
      }
      metrics.tally := metrics.tally.(authSuccess := metrics.tally.authSuccess + 1);
      return Ok(found.value);
    }

    method CountFailure()
      modifies metrics
      ensures metrics.tally == old(metrics.tally).(authFailure := old(metrics.tally).authFailure + 1)
    {
      metrics.tally := metrics.tally.(authFailure := metrics.tally.authFailure + 1);
    }
  }

  class RegisterUser {
    const cfg: Config
    const metrics: Metrics
    const userRepo: UserRepository

    constructor (cfg: Config, metrics: Metrics, userRepo: UserRepository)
      ensures this.cfg == cfg && this.metrics == metrics && this.userRepo == userRepo
    {
      this.cfg := cfg;
      this.metrics := metrics;
      this.userRepo := userRepo;
    }

    method Execute(id: UserId, email: string, password: string, fullName: Option<string>) returns (r: Result<UserId>)
      requires userRepo.session.calls == 0
      modifies metrics, userRepo.session`calls, userRepo.session`working
      ensures (userRepo.session.working.users, metrics.tally, r) ==
              Enroll(cfg, old(userRepo.session.working.users), old(metrics.tally), id, email, password, fullName,
                     userRepo.session.fault)
      ensures userRepo.session.working.tokens == old(userRepo.session.working.tokens)
      ensures r.Ok? ==> userRepo.session.calls == 2
    {
      var found :- userRepo.GetByEmail(cfg, email);
      if found.Some? {
        return Refused(Conflict("A user with this email already exists."));
      }
      var user :- userRepo.Create(id, email, Argon2(password), fullName);
      metrics.tally := metrics.tally.(registrations := metrics.tally.registrations + 1);
      return Ok(user);
    }
  }
}
