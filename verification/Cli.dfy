/** The `seed` command (`app/cli.py`). `echoed` is the line it prints, `report` how it ends. */
module Cli {
  import opened Types
  import opened Requests
  import opened Databases
  import opened Repositories

  method Seed(
    cfg: Config, db: Database, fixtures: seq<Fixture>, ids: seq<UserId>, fault: Option<nat>, ghost before: Sys)
    returns (echoed: Option<(int, int)>, report: Result<(int, int)>)
    requires |ids| == |fixtures|
    requires before.store == db.committed
    modifies db
    ensures (before.(store := db.committed), report) == ServeSeed(cfg, before, fixtures, ids, fault)
    ensures echoed == Echoed(cfg, before, fixtures, ids, fault)
  {
    var session := new Session(db, fault);
    var repo := new UserRepository(session);
    var created := SeedAll(cfg, repo, fixtures, ids);
    if !created.Ok? {
      echoed := None;
      report := session.Close(Crashed);
      return;
    }
    echoed := Some((created.value, |fixtures| - created.value));
    report := session.Close(Ok((created.value, |fixtures| - created.value)));
  }

  /** The loop: how many accounts it creates. */
  method SeedAll(cfg: Config, repo: UserRepository, fixtures: seq<Fixture>, ids: seq<UserId>)
    returns (created: Result<nat>)
    requires |ids| == |fixtures|
    modifies repo.session`calls, repo.session`working
    ensures var sown := Plant(cfg, old(repo.session.working.users), fixtures, ids, repo.session.fault,
                              old(repo.session.calls));
            && repo.session.calls == sown.calls
            && repo.session.working == old(repo.session.working).(users := sown.users)
            && created == if sown.whole then Ok(sown.created) else Crashed
  {
    var count := 0;
    ghost var sown := Plant(cfg, repo.session.working.users, fixtures, ids, repo.session.fault, repo.session.calls);
    for i := 0 to |fixtures|
      invariant repo.session.working.tokens == old(repo.session.working.tokens)
      invariant var rest := Plant(cfg, repo.session.working.users, fixtures[i..], ids[i..], repo.session.fault,
                                  repo.session.calls);
                sown == rest.(created := count + rest.created)
    {
      PlantRound(cfg, repo.session.working.users, fixtures, ids, repo.session.fault, repo.session.calls, i);
      var added := SeedOne(cfg, repo, fixtures[i], ids[i]);
      if !added.Ok? {
        return Crashed;
      }
      count := count + if added.value then 1 else 0;
    }
    return Ok(count);
  }

  lemma PlantRound(
    cfg: Config, users: map<UserId, User>, fixtures: seq<Fixture>, ids: seq<UserId>, fault: Option<nat>, calls: nat,
    i: nat)
    requires |ids| == |fixtures| && i < |fixtures|
    ensures var one := PlantOne(cfg, users, fixtures[i], ids[i], fault, calls);
            var rest := Plant(cfg, one.users, fixtures[i + 1..], ids[i + 1..], fault, one.calls);
            Plant(cfg, users, fixtures[i..], ids[i..], fault, calls)
            == if one.whole then rest.(created := one.created + rest.created) else one
  {
    assert fixtures[i..][1..] == fixtures[i + 1..] && ids[i..][1..] == ids[i + 1..];
  }

  /** The body of the loop: true when it has created an account. */
  method SeedOne(cfg: Config, repo: UserRepository, f: Fixture, id: UserId) returns (added: Result<bool>)
    modifies repo.session`calls, repo.session`working
    ensures var one := PlantOne(cfg, old(repo.session.working.users), f, id, repo.session.fault,
                                old(repo.session.calls));
            && repo.session.calls == one.calls
            && repo.session.working == old(repo.session.working).(users := one.users)
            && added == if one.whole then Ok(one.created == 1) else Crashed
  {
    if f.email.None? {
      return Crashed;
    }
    var found :- repo.GetByEmail(cfg, f.email.value);
    if found.Some? {
      return Ok(false);
    }
    var password := if f.password.Some? then f.password.value else "changeme";
    var _ :- repo.Create(id, f.email.value, Argon2(password), f.fullName);
    return Ok(true);
  }
}
