/** The auth routes: each request runs its use cases in one session (`app/modules/users/routes/auth.py`). */
module Routes {
  import opened Types
  import opened Jwt
  import opened Requests
  import opened Databases
  import opened Repositories
  import opened UseCases

  class AuthRoutes {
    const cfg: Config
    const db: Database
    const signer: Signer
    const metrics: Metrics

    constructor (cfg: Config, db: Database, signer: Signer, metrics: Metrics)
      ensures this.cfg == cfg && this.db == db && this.signer == signer && this.metrics == metrics
    {
      this.cfg := cfg;
      this.db := db;
      this.signer := signer;
      this.metrics := metrics;
    }

    ghost function State(): Sys
      reads db, signer, metrics
    {
      Sys(db.committed, signer.signed, metrics.tally)
    }

    method Refresh(raw: RawToken, t: RefreshTimes, jti: Jti, fault: Option<nat>) returns (r: Result<TokenPair>)
      requires cfg.cleanup
      modifies db, signer, metrics
      ensures (State(), r) == ServeRefresh(cfg, old(State()), raw, t, jti, fault)
      ensures !r.Ok? ==> db.committed == old(db.committed)
    {
      var session := new Session(db, fault);
      var userRepo := new UserRepository(session);
      var tokenRepo := new RefreshTokenRepository(session);
      var usecase := new RefreshAccessToken(cfg, signer, metrics, userRepo, tokenRepo);
      r := usecase.Execute(raw, t, jti);
      r := session.Close(r);
    }

    /** The events of a login have only logging handlers, so dispatching them changes nothing here. */
    method Login(email: string, password: string, t: IssueTimes, jti: Jti, fault: Option<nat>)
      returns (r: Result<TokenPair>)
      modifies db, signer, metrics
      ensures (State(), r) == ServeLogin(cfg, old(State()), email, password, t, jti, fault)
      ensures !r.Ok? ==> db.committed == old(db.committed)
    {
      var session := new Session(db, fault);
      var userRepo := new UserRepository(session);
      var tokenRepo := new RefreshTokenRepository(session);
      var authenticate := new AuthenticateUser(cfg, metrics, userRepo);
      var user := authenticate.Execute(email, password);
      if user.IsFailure() {
        r := session.Close(user.PropagateFailure<TokenPair>());
        return;
      }
      var issue := new IssueTokenPair(cfg, signer, tokenRepo);
      r := issue.Execute(user.value, t, jti);
      r := session.Close(r);
    }

    method Register(id: UserId, email: string, password: string, fullName: Option<string>, fault: Option<nat>)
      returns (r: Result<UserId>)
      modifies db, signer, metrics
      ensures (State(), r) == ServeRegister(cfg, old(State()), id, email, password, fullName, fault)
      ensures !r.Ok? ==> db.committed == old(db.committed)
    {
      var session := new Session(db, fault);
      var userRepo := new UserRepository(session);
      var usecase := new RegisterUser(cfg, metrics, userRepo);
      r := usecase.Execute(id, email, password, fullName);
      r := session.Close(r);
    }
  }
}
