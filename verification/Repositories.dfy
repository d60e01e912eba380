/** Data access over one session. Each method is one flush or statement, and raises when its round trip does. */
module Repositories {
  import opened Types
  import opened Requests
  import opened Databases

  class UserRepository {
    const session: Session

    constructor (session: Session)
      ensures this.session == session
    {
      this.session := session;
    }

    method GetById(id: UserId) returns (r: Result<Option<User>>)
      modifies session`calls
      ensures session.calls == old(session.calls) + 1
      ensures r == if session.fault == Some(old(session.calls)) then Crashed
                   else if id in session.working.users then Ok(Some(session.working.users[id]))
                   else Ok(None)
    {
      var _ :- session.Call();
      return Ok(if id in session.working.users then Some(session.working.users[id]) else None);
    }

    /** Raises when two accounts match. */
    method GetByEmail(cfg: Config, email: string) returns (r: Result<Option<UserId>>)
      modifies session`calls
      ensures session.calls == old(session.calls) + 1
      ensures var m := FindByEmail(cfg, session.working.users, email);
              r == if session.fault == Some(old(session.calls)) || m.Many? then Crashed
                   else if m.One? then Ok(Some(m.id))
                   else Ok(None)
    {
      var _ :- session.Call();
      match FindByEmail(cfg, session.working.users, email)
      case NoMatch => return Ok(None);
      case One(id) => return Ok(Some(id));
      case Many => return Crashed;
    }

    method Create(id: UserId, email: string, password: PasswordHash, fullName: Option<string>)
      returns (r: Result<UserId>)
      modifies session`calls, session`working
      ensures session.calls == old(session.calls) + 1
      ensures session.fault == Some(old(session.calls)) || UserClash(old(session.working.users), id, email)
              ==> r == Crashed && session.working == old(session.working)
      ensures !(session.fault == Some(old(session.calls)) || UserClash(old(session.working.users), id, email))
              ==> && r == Ok(id)
                  && session.working == old(session.working).(
                     users := old(session.working.users)[id := User(email, password, fullName, true, false)])
    {
      var _ :- session.Call();
      if UserClash(session.working.users, id, email) {
        return Crashed;
      }
      session.working := session.working.(
        users := session.working.users[id := User(email, password, fullName, true, false)]);
      return Ok(id);
    }
  }

  class RefreshTokenRepository {
    const session: Session

    constructor (session: Session)
      ensures this.session == session
    {
      this.session := session;
    }

    method GetByJtiHash(h: JtiHash) returns (r: Result<Option<Row>>)
      modifies session`calls
      ensures session.calls == old(session.calls) + 1
      ensures r == if session.fault == Some(old(session.calls)) then Crashed
                   else if h in session.working.tokens then Ok(Some(session.working.tokens[h]))
                   else Ok(None)
    {
      var _ :- session.Call();
      return Ok(if h in session.working.tokens then Some(session.working.tokens[h]) else None);
    }

    /** Raises on the unique `jti_hash` and on the foreign key. */
    method Create(userId: UserId, h: JtiHash, expiresAt: Instant) returns (r: Result<()>)
      modifies session`calls, session`working
      ensures session.calls == old(session.calls) + 1
      ensures r == if session.fault == Some(old(session.calls)) || h in old(session.working.tokens)
                      || userId !in old(session.working.users) then Crashed else Ok(())
      ensures session.working == if r.Ok?
                then old(session.working).(tokens := old(session.working.tokens)[h := Row(userId, expiresAt, None)])
                else old(session.working)
    {
      var _ :- session.Call();
      if h in session.working.tokens || userId !in session.working.users {
        return Crashed;
      }
      session.working := session.working.(tokens := session.working.tokens[h := Row(userId, expiresAt, None)]);
      return Ok(());
    }

    /** Raises when the row has gone meanwhile. */
    method Revoke(h: JtiHash, now: Instant) returns (r: Result<()>)
      modifies session`calls, session`working
      ensures session.calls == old(session.calls) + 1
      ensures r == if session.fault == Some(old(session.calls)) || h !in old(session.working.tokens)
                   then Crashed else Ok(())
      ensures session.working == if r.Ok?
                then old(session.working).(tokens := Revoked(old(session.working.tokens), h, now))
                else old(session.working)
    {
      var _ :- session.Call();
      if h !in session.working.tokens {
        return Crashed;
      }
      var row := session.working.tokens[h].(revokedAt := Some(now));
      session.working := session.working.(tokens := session.working.tokens[h := row]);
      return Ok(());
    }

    method CleanupExpired(cfg: Config, now: Instant) returns (r: Result<()>)
      requires cfg.cleanup
      modifies session`calls, session`working
      ensures session.calls == old(session.calls) + 1
      ensures r == if session.fault == Some(old(session.calls)) then Crashed else Ok(())
      ensures session.working == if r.Ok?
                then old(session.working).(tokens := Swept(cfg, old(session.working.tokens), now))
                else old(session.working)
    {
      var _ :- session.Call();
      var rows := session.working.tokens;
      session.working := session.working.(tokens := rows - (set h | h in rows && rows[h].expiresAt < now));
      return Ok(());
    }
  }
}
