/** What each request answers and commits, spelled out: the tokens of a pair claim by claim, every row and account
    field by field, every refusal by its message. */
module Answers {
  import opened Types
  import opened Requests
  import opened Machine
  import opened Invariants
  import opened Acceptance
  import opened Accounts

  // ---- a pair --------------------------------------------------------------------------------------

  /** A claim keeps the whole second of an instant. */
  predicate Truncated(claim: Instant, exact: Instant) {
    claim % 1_000_000 == 0 && claim <= exact < claim + 1_000_000
  }

  /** The pair names the account in both tokens; the access token lives for the configured minutes, which
      `expires_in` gives in seconds, and the refresh token, alone in carrying the `jti`, for the configured days. */
  predicate PairFor(cfg: Config, pair: TokenPair, user: UserId, t: IssueTimes, jti: Jti) {
    && pair.access.Encoded? && pair.refresh.Encoded? && pair.expiresIn == cfg.accessMinutes * 60
    && var access, refresh := pair.access.claims, pair.refresh.claims;
    && access.sub == Some(user) && access.kind == Access && access.jti == None
    && Truncated(access.iat, t.access)
    && Truncated(access.exp, t.access + pair.expiresIn * 1_000_000)
    && refresh.sub == Some(user) && refresh.kind == Refresh && refresh.jti == Some(jti)
    && Truncated(refresh.iat, t.refresh)
    && Truncated(refresh.exp, t.refresh + cfg.refreshDays * 24 * 60 * 60 * 1_000_000)
  }

  lemma PairIsExact(cfg: Config, user: UserId, t: IssueTimes, jti: Jti)
    ensures PairFor(cfg, NewPair(cfg, user, t, jti), user, t, jti)
  {
  }

  /** A row of a token just issued: it lives for the configured days from a later reading of the clock. */
  function RowFor(cfg: Config, user: UserId, t: IssueTimes): Row {
    Row(user, t.row + cfg.refreshDays * 24 * 60 * 60 * 1_000_000, None)
  }

  // ---- refresh -------------------------------------------------------------------------------------

  /** The store after a rotation: the row presented is stamped, rows expired by the cleanup's reading are gone, the
      successor's row is there, and every other row is as it was. */
  ghost predicate Rotated(cfg: Config, before: Store, after: Store, user: UserId, presented: Jti, l: Label)
    requires l.RefreshCall?
  {
    && after.users == before.users
    && (forall h :: h in after.tokens <==>
          h == Sha256(l.jti) || (h in before.tokens && (cfg.cleanup ==> l.at.cleanup <= before.tokens[h].expiresAt)))
    && after.tokens[Sha256(l.jti)] == RowFor(cfg, user, l.at.issue)
    && forall h :: h in before.tokens && h in after.tokens ==>
         after.tokens[h] == if h == Sha256(presented)
                            then Row(before.tokens[h].userId, before.tokens[h].expiresAt, Some(l.at.revoke))
                            else before.tokens[h]
  }

  lemma RotatedStore(cfg: Config, s: Sys, l: Label)
    requires l.RefreshCall? && Sha256(l.jti) !in s.store.tokens && Respond(cfg, s, l).1.Ok?
    ensures Judge(s, l.raw, l.at).Fit? && l.raw.claims.jti.Some?
    ensures Rotated(cfg, s.store, Respond(cfg, s, l).0.store, Judge(s, l.raw, l.at).user, l.raw.claims.jti.value, l)
  {
    var j := Judge(s, l.raw, l.at);
    var after := Respond(cfg, s, l).0.store;
    var rows := Swept(cfg, Revoked(s.store.tokens, Sha256(l.raw.claims.jti.value), l.at.revoke), l.at.cleanup);
    assert after.tokens == rows[Sha256(l.jti) := NewRow(cfg, j.user, l.at.issue)];
  }

  lemma RefreshReplies(cfg: Config, s: Sys, l: Label)
    requires l.RefreshCall? && Respond(cfg, s, l).1.Ok?
    ensures Judge(s, l.raw, l.at).Fit?
    ensures Respond(cfg, s, l).1.value == Tokens(NewPair(cfg, Judge(s, l.raw, l.at).user, l.at.issue, l.jti))
    ensures var pair := NewPair(cfg, Judge(s, l.raw, l.at).user, l.at.issue, l.jti);
            Respond(cfg, s, l).0.signed == s.signed + {pair.access.claims, pair.refresh.claims}
  {
  }

  /** A refresh that succeeds answers with a pair for the account of the token presented, signs both its tokens and
      commits exactly the rotation. */
  lemma RefreshCommits(cfg: Config, w: World, l: Label)
    requires Inv(cfg, w) && Enabled(w, l) && l.RefreshCall? && Respond(cfg, w.sys, l).1.Ok?
    ensures l.raw.Encoded? && l.raw.claims.jti.Some? && l.raw.claims.sub.Some?
    ensures var (s', r) := Respond(cfg, w.sys, l);
            && r.value.Tokens? && PairFor(cfg, r.value.pair, l.raw.claims.sub.value, l.at.issue, l.jti)
            && s'.signed == w.sys.signed + {r.value.pair.access.claims, r.value.pair.refresh.claims}
            && Rotated(cfg, w.sys.store, s'.store, l.raw.claims.sub.value, l.raw.claims.jti.value, l)
  {
    FreshIsUnknown(cfg, w, l.jti);
    ExchangeFacts(cfg, w, l);
    RotatedStore(cfg, w.sys, l);
    RefreshReplies(cfg, w.sys, l);
    PairIsExact(cfg, Judge(w.sys, l.raw, l.at).user, l.at.issue, l.jti);
  }

  /** In no state whatever, reachable or not, does a refresh get past a guard: it needs a refresh JWT signed here and
      unexpired, with an identifier whose row is unrevoked and unexpired, and the subject an active account. */
  lemma AcceptedInAnyState(cfg: Config, s: Sys, l: Label)
    requires l.RefreshCall? && Respond(cfg, s, l).1.Ok?
    ensures l.raw.Encoded?
    ensures var c := l.raw.claims;
            && c in s.signed && l.at.decode < c.exp && c.kind == Refresh && c.jti.Some? && c.sub.Some?
            && Sha256(c.jti.value) in s.store.tokens
            && s.store.tokens[Sha256(c.jti.value)].revokedAt == None
            && l.at.check <= s.store.tokens[Sha256(c.jti.value)].expiresAt
            && c.sub.value in s.store.users && s.store.users[c.sub.value].active
  {
  }

  /** A JWT without a usable subject is refused as invalid, by the refresh once its row is found good and by the
      protected routes at once, though the service never signs one. */
  lemma NamelessIsInvalid(cfg: Config, s: Sys, l: Label)
    requires l.RefreshCall? && l.raw.Encoded? && l.raw.claims in s.signed && l.raw.claims.sub == None
    requires l.at.decode < l.raw.claims.exp && l.raw.claims.jti.Some? && l.fault != Some(0)
    requires var h := Sha256(l.raw.claims.jti.value);
             && h in s.store.tokens && s.store.tokens[h].revokedAt == None && l.at.check <= s.store.tokens[h].expiresAt
    ensures Respond(cfg, s, l).1 == Refused(Unauthorized("Invalid refresh token."))
    ensures CurrentUser(s, l.raw, l.at.decode, l.fault) == Refused(Unauthorized("Could not validate credentials."))
  {
  }

  // ---- login ---------------------------------------------------------------------------------------

  /** The account's stored email is, to the database, what the application makes of the email given. */
  predicate Matching(cfg: Config, users: map<UserId, User>, email: string, id: UserId) {
    id in users && cfg.dbFold(users[id].email) == cfg.appFold(email)
  }

  ghost predicate Nobody(cfg: Config, users: map<UserId, User>, email: string) {
    forall id :: !Matching(cfg, users, email, id)
  }

  ghost predicate Sole(cfg: Config, users: map<UserId, User>, email: string, id: UserId) {
    Matching(cfg, users, email, id) && forall other :: Matching(cfg, users, email, other) ==> other == id
  }

  lemma FoundIsSole(cfg: Config, users: map<UserId, User>, email: string)
    ensures FindByEmail(cfg, users, email).NoMatch? <==> Nobody(cfg, users, email)
    ensures forall id :: FindByEmail(cfg, users, email) == One(id) <==> Sole(cfg, users, email, id)
  {
    var found := Matches(cfg, users, email);
    assert forall id :: id in found <==> Matching(cfg, users, email, id);
    forall id: UserId
      ensures FindByEmail(cfg, users, email) == One(id) <==> Sole(cfg, users, email, id)
    {
      if Sole(cfg, users, email, id) {
        assert found == {id};
      }
    }
  }

  /** The only account with the email, the password that was hashed, and active. */
  ghost predicate Opens(cfg: Config, users: map<UserId, User>, email: string, password: string, id: UserId) {
    Sole(cfg, users, email, id) && users[id].password == Argon2(password) && users[id].active
  }

  ghost predicate WrongPassword(cfg: Config, users: map<UserId, User>, email: string, password: string) {
    exists id :: Sole(cfg, users, email, id) && users[id].password != Argon2(password)
  }

  ghost predicate Inactive(cfg: Config, users: map<UserId, User>, email: string, password: string) {
    exists id :: Sole(cfg, users, email, id) && users[id].password == Argon2(password) && !users[id].active
  }

  ghost predicate Openable(cfg: Config, users: map<UserId, User>, email: string, password: string) {
    exists id :: Opens(cfg, users, email, password, id)
  }

  /** What a login answers, each answer by its literal message exactly when the accounts call for it. It makes three
      database calls: the lookup, the insert and the commit. */
  ghost predicate AnswersLogin(cfg: Config, users: map<UserId, User>, l: Label, r: Result<Reply>)
    requires l.LoginCall?
  {
    && (r == Refused(Unauthorized("Incorrect email or password.")) <==>
          !RaisesWithin(l.fault, 1) && (Nobody(cfg, users, l.email) || WrongPassword(cfg, users, l.email, l.password)))
    && (r == Refused(Unauthorized("This account is inactive.")) <==>
          !RaisesWithin(l.fault, 1) && Inactive(cfg, users, l.email, l.password))
    && (r.Ok? <==> !RaisesWithin(l.fault, 3) && Openable(cfg, users, l.email, l.password))
    && (r == Crashed <==>
          || RaisesWithin(l.fault, 1)
          || (!Nobody(cfg, users, l.email) && forall id :: !Sole(cfg, users, l.email, id))
          || (RaisesWithin(l.fault, 3) && Openable(cfg, users, l.email, l.password)))
  }

  lemma LoginMessagesDiffer()
    ensures "Incorrect email or password." != "This account is inactive."
  {
    assert "Incorrect email or password."[0] == 'I' && "This account is inactive."[0] == 'T';
  }

  /** The answer once the lookup is known. */
  lemma LoginAnswersBy(cfg: Config, s: Sys, l: Label)
    requires l.LoginCall? && Sha256(l.jti) !in s.store.tokens
    ensures var r, m := Respond(cfg, s, l).1, FindByEmail(cfg, s.store.users, l.email);
            if RaisesWithin(l.fault, 1) || m.Many? then r == Crashed
            else if m.NoMatch? || s.store.users[m.id].password != Argon2(l.password)
            then r == Refused(Unauthorized("Incorrect email or password."))
            else if !s.store.users[m.id].active then r == Refused(Unauthorized("This account is inactive."))
            else if RaisesWithin(l.fault, 3) then r == Crashed
            else r == Ok(Tokens(NewPair(cfg, m.id, l.times, l.jti)))
  {
  }

  lemma LoginAnswers(cfg: Config, s: Sys, l: Label)
    requires l.LoginCall? && Sha256(l.jti) !in s.store.tokens
    ensures AnswersLogin(cfg, s.store.users, l, Respond(cfg, s, l).1)
  {
    var users, m := s.store.users, FindByEmail(cfg, s.store.users, l.email);
    LoginMessagesDiffer();
    LoginAnswersBy(cfg, s, l);
    FoundIsSole(cfg, users, l.email);
    if m.One? {
      assert Sole(cfg, users, l.email, m.id);
      assert forall id :: Sole(cfg, users, l.email, id) ==> id == m.id;
      assert Opens(cfg, users, l.email, l.password, m.id) <==>
             users[m.id].password == Argon2(l.password) && users[m.id].active;
    }
  }

  /** A login that succeeds answers with a pair for the account it opened, signs both tokens and adds exactly one
      row for that account. */
  lemma LoginCommits(cfg: Config, s: Sys, l: Label, id: UserId)
    requires l.LoginCall? && Sha256(l.jti) !in s.store.tokens && Respond(cfg, s, l).1.Ok?
    requires Matching(cfg, s.store.users, l.email, id)
    ensures Opens(cfg, s.store.users, l.email, l.password, id)
    ensures var (s', r) := Respond(cfg, s, l);
            && r.value.Tokens? && PairFor(cfg, r.value.pair, id, l.times, l.jti)
            && s'.signed == s.signed + {r.value.pair.access.claims, r.value.pair.refresh.claims}
            && s'.store == Store(s.store.users, s.store.tokens[Sha256(l.jti) := RowFor(cfg, id, l.times)])
  {
    LoginAnswersBy(cfg, s, l);
    FoundIsSole(cfg, s.store.users, l.email);
    PairIsExact(cfg, id, l.times, l.jti);
    assert FindByEmail(cfg, s.store.users, l.email) == One(id);
    LoginStores(cfg, s, l, id);
  }

  lemma LoginStores(cfg: Config, s: Sys, l: Label, id: UserId)
    requires l.LoginCall? && Respond(cfg, s, l).1.Ok? && FindByEmail(cfg, s.store.users, l.email) == One(id)
    ensures var s', pair := Respond(cfg, s, l).0, NewPair(cfg, id, l.times, l.jti);
            && s'.signed == s.signed + {pair.access.claims, pair.refresh.claims}
            && s'.store == Store(s.store.users, s.store.tokens[Sha256(l.jti) := RowFor(cfg, id, l.times)])
  {
  }

  // ---- registration --------------------------------------------------------------------------------

  /** A new account: the hash of the password given, active and not staff. */
  function AccountFor(email: string, password: string, fullName: Option<string>): User {
    User(email, Argon2(password), fullName, true, false)
  }

  /** The primary key and the unique email column both let the account in. */
  ghost predicate Insertable(users: map<UserId, User>, id: UserId, email: string) {
    id !in users && forall other :: other in users ==> users[other].email != email
  }

  /** What a registration answers and leaves. It makes three database calls: the lookup, the insert and the commit. */
  lemma RegisterAnswers(cfg: Config, s: Sys, l: Label)
    requires l.RegisterCall?
    ensures var (s', r) := Respond(cfg, s, l);
            var users := s.store.users;
            && (r == Refused(Conflict("A user with this email already exists.")) <==>
                  !RaisesWithin(l.fault, 1) && exists id :: Sole(cfg, users, l.email, id))
            && (r == Ok(Account(l.id)) <==>
                  !RaisesWithin(l.fault, 3) && Nobody(cfg, users, l.email) && Insertable(users, l.id, l.email))
            && (r == Ok(Account(l.id)) || r == Refused(Conflict("A user with this email already exists."))
                || r == Crashed)
            && s'.signed == s.signed
            && s'.store == if r.Ok?
                           then Store(users[l.id := AccountFor(l.email, l.password, l.fullName)], s.store.tokens)
                           else s.store
  {
    FoundIsSole(cfg, s.store.users, l.email);
    var m := FindByEmail(cfg, s.store.users, l.email);
    assert m.One? ==> Sole(cfg, s.store.users, l.email, m.id);
  }

  /** Whoever registers can log in: with the email in any spelling folded alike and that password, as that account,
      and with no other password. */
  lemma RegisteredLogsIn(cfg: Config, s: Sys, l: Label, login: Label)
    requires l.RegisterCall? && Alike(cfg, l.email) && Respond(cfg, s, l).1.Ok?
    requires login.LoginCall? && login.fault.None? && cfg.appFold(login.email) == cfg.appFold(l.email)
    requires Sha256(login.jti) !in s.store.tokens
    ensures var r := Respond(cfg, Respond(cfg, s, l).0, login).1;
            if login.password == l.password
            then r.Ok? && r.value.Tokens? && PairFor(cfg, r.value.pair, l.id, login.times, login.jti)
            else r == Refused(Unauthorized("Incorrect email or password."))
  {
    var s' := Respond(cfg, s, l).0;
    RegisterAnswers(cfg, s, l);
    assert Nobody(cfg, s.store.users, l.email);
    assert forall other :: Matching(cfg, s'.store.users, l.email, other) && other != l.id ==>
             Matching(cfg, s.store.users, l.email, other);
    AccountLogsIn(cfg, s', l.id, l.email, l.password, l.fullName, login);
  }

  lemma AccountLogsIn(
    cfg: Config, s: Sys, id: UserId, email: string, password: string, fullName: Option<string>, login: Label)
    requires id in s.store.users && s.store.users[id] == AccountFor(email, password, fullName)
    requires Alike(cfg, email) && forall other :: Matching(cfg, s.store.users, email, other) ==> other == id
    requires login.LoginCall? && login.fault.None? && cfg.appFold(login.email) == cfg.appFold(email)
    requires Sha256(login.jti) !in s.store.tokens
    ensures var r := Respond(cfg, s, login).1;
            if login.password == password
            then r.Ok? && r.value.Tokens? && PairFor(cfg, r.value.pair, id, login.times, login.jti)
            else r == Refused(Unauthorized("Incorrect email or password."))
  {
    var users := s.store.users;
    assert forall other :: Matching(cfg, users, login.email, other) <==> Matching(cfg, users, email, other);
    assert Matching(cfg, users, login.email, id) && Sole(cfg, users, login.email, id);
    LoginAnswers(cfg, s, login);
    if login.password == password {
      assert Opens(cfg, users, login.email, login.password, id);
      LoginCommits(cfg, s, login, id);
    }
  }

  // ---- seeding -------------------------------------------------------------------------------------

  function AccountOf(f: Fixture): User
    requires f.email.Some?
  {
    AccountFor(f.email.value, if f.password.Some? then f.password.value else "changeme", f.fullName)
  }

  /** The account is that of one of the fixtures, under the identifier drawn for it. */
  ghost predicate Seeds(fixtures: seq<Fixture>, ids: seq<UserId>, id: UserId, user: User)
    requires |ids| == |fixtures|
  {
    exists i :: 0 <= i < |ids| && ids[i] == id && fixtures[i].email.Some? && user == AccountOf(fixtures[i])
  }

  lemma {:induction false} PlantedAreFixtures(
    cfg: Config, users: map<UserId, User>, fixtures: seq<Fixture>, ids: seq<UserId>, fault: Option<nat>, calls: nat,
    id: UserId)
    requires |ids| == |fixtures|
    requires id in Plant(cfg, users, fixtures, ids, fault, calls).users && id !in users
    ensures Seeds(fixtures, ids, id, Plant(cfg, users, fixtures, ids, fault, calls).users[id])
    decreases |fixtures|
  {
    var one := PlantOne(cfg, users, fixtures[0], ids[0], fault, calls);
    var end := Plant(cfg, users, fixtures, ids, fault, calls).users;
    if id in one.users {
      PlantExtends(cfg, one.users, fixtures[1..], ids[1..], fault, one.calls);
      assert ids[0] == id && end[id] == AccountOf(fixtures[0]);
    } else {
      PlantedAreFixtures(cfg, one.users, fixtures[1..], ids[1..], fault, one.calls, id);
      var i :| 0 <= i < |ids[1..]| && ids[1..][i] == id && fixtures[1..][i].email.Some?
               && end[id] == AccountOf(fixtures[1..][i]);
      assert ids[i + 1] == id && fixtures[i + 1] == fixtures[1..][i];
    }
  }

  /** Fixture i is the first whose email the fixture's own matches, and no account had it before. */
  ghost predicate Absent(cfg: Config, users: map<UserId, User>, fixtures: seq<Fixture>, i: nat)
    requires i < |fixtures| && fixtures[i].email.Some?
  {
    && Nobody(cfg, users, fixtures[i].email.value)
    && forall k :: 0 <= k < i && fixtures[k].email.Some? ==>
         cfg.dbFold(fixtures[k].email.value) != cfg.appFold(fixtures[i].email.value)
  }

  lemma {:induction false} AbsentIsPlanted(
    cfg: Config, users: map<UserId, User>, fixtures: seq<Fixture>, ids: seq<UserId>, fault: Option<nat>, calls: nat,
    i: nat)
    requires |ids| == |fixtures| && i < |fixtures| && fixtures[i].email.Some? && Absent(cfg, users, fixtures, i)
    requires Plant(cfg, users, fixtures, ids, fault, calls).whole
    ensures var end := Plant(cfg, users, fixtures, ids, fault, calls).users;
            ids[i] in end && ids[i] !in users && end[ids[i]] == AccountOf(fixtures[i])
    decreases |fixtures|
  {
    var one := PlantOne(cfg, users, fixtures[0], ids[0], fault, calls);
    PlantExtends(cfg, one.users, fixtures[1..], ids[1..], fault, one.calls);
    OneExtends(cfg, users, fixtures[0], ids[0], fault, calls);
    if i == 0 {
      FoundIsSole(cfg, users, fixtures[0].email.value);
      assert one.users == users[ids[0] := AccountOf(fixtures[0])];
    } else {
      AbsentAfterOne(cfg, users, fixtures, ids[0], fault, calls, i);
      AbsentIsPlanted(cfg, one.users, fixtures[1..], ids[1..], fault, one.calls, i - 1);
    }
  }

  lemma AbsentAfterOne(
    cfg: Config, users: map<UserId, User>, fixtures: seq<Fixture>, id: UserId, fault: Option<nat>, calls: nat, i: nat)
    requires 0 < i < |fixtures| && fixtures[i].email.Some? && Absent(cfg, users, fixtures, i)
    ensures Absent(cfg, PlantOne(cfg, users, fixtures[0], id, fault, calls).users, fixtures[1..], i - 1)
  {
    var email, more := fixtures[i].email.value, PlantOne(cfg, users, fixtures[0], id, fault, calls).users;
    forall other
      ensures !Matching(cfg, more, email, other)
    {
      assert !Matching(cfg, users, email, other);
    }
    assert forall k :: 0 <= k < i - 1 ==> fixtures[1..][k] == fixtures[k + 1];
  }

  /** A seeding that succeeds adds an account for each fixture whose email nobody had before, and accounts of
      fixtures only: the fixture's email, password, or "changeme", and full name, active and not staff. */
  lemma SeededAccounts(cfg: Config, s: Sys, fixtures: seq<Fixture>, ids: seq<UserId>, fault: Option<nat>)
    requires |ids| == |fixtures| && ServeSeed(cfg, s, fixtures, ids, fault).1.Ok?
    ensures var users, users' := s.store.users, ServeSeed(cfg, s, fixtures, ids, fault).0.store.users;
            && (forall id :: id in users' && id !in users ==> Seeds(fixtures, ids, id, users'[id]))
            && (forall i :: 0 <= i < |ids| && fixtures[i].email.Some? && Absent(cfg, users, fixtures, i) ==>
                  ids[i] in users' && ids[i] !in users && users'[ids[i]] == AccountOf(fixtures[i]))
  {
    var users, users' := s.store.users, ServeSeed(cfg, s, fixtures, ids, fault).0.store.users;
    forall id | id in users' && id !in users
      ensures Seeds(fixtures, ids, id, users'[id])
    {
      PlantedAreFixtures(cfg, users, fixtures, ids, fault, 0, id);
    }
    forall i | 0 <= i < |ids| && fixtures[i].email.Some? && Absent(cfg, users, fixtures, i)
      ensures ids[i] in users' && ids[i] !in users && users'[ids[i]] == AccountOf(fixtures[i])
    {
      AbsentIsPlanted(cfg, users, fixtures, ids, fault, 0, i);
    }
  }

  /** Each account seeded from fixture i can log in with that fixture's email and password, and no other password. */
  lemma SeededLogsIn(
    cfg: Config, s: Sys, fixtures: seq<Fixture>, ids: seq<UserId>, fault: Option<nat>, i: nat, login: Label)
    requires |ids| == |fixtures| && UniqueEmails(cfg, s.store.users) && FixturesAlike(cfg, fixtures)
    requires ServeSeed(cfg, s, fixtures, ids, fault).1.Ok?
    requires i < |fixtures| && fixtures[i].email.Some? && Absent(cfg, s.store.users, fixtures, i)
    requires login.LoginCall? && login.fault.None? && cfg.appFold(login.email) == cfg.appFold(fixtures[i].email.value)
    requires Sha256(login.jti) !in s.store.tokens
    ensures var r := Respond(cfg, ServeSeed(cfg, s, fixtures, ids, fault).0, login).1;
            if login.password == (if fixtures[i].password.Some? then fixtures[i].password.value else "changeme")
            then r.Ok? && r.value.Tokens? && PairFor(cfg, r.value.pair, ids[i], login.times, login.jti)
            else r == Refused(Unauthorized("Incorrect email or password."))
  {
    var s', f := ServeSeed(cfg, s, fixtures, ids, fault).0, fixtures[i];
    SeededAccounts(cfg, s, fixtures, ids, fault);
    SeedingSucceeds(cfg, s, fixtures, ids, fault);
    assert f in fixtures;
    var password := if f.password.Some? then f.password.value else "changeme";
    assert s'.store.users[ids[i]] == AccountFor(f.email.value, password, f.fullName);
    AccountLogsIn(cfg, s', ids[i], f.email.value, password, f.fullName, login);
  }

  /** The line printed and how the command ends: what is printed is what is reported on success, nothing is printed
      when the loop fails, and after a printed line only a raising commit can still fail it. */
  lemma SeedingReports(cfg: Config, s: Sys, fixtures: seq<Fixture>, ids: seq<UserId>, fault: Option<nat>)
    requires |ids| == |fixtures|
    ensures var (s', r) := ServeSeed(cfg, s, fixtures, ids, fault);
            var echoed := Echoed(cfg, s, fixtures, ids, fault);
            && (r.Ok? ==> echoed == Some(r.value)) && (r.Ok? || r == Crashed)
            && (echoed.None? ==> r == Crashed) && (echoed.Some? && fault.None? ==> r == Ok(echoed.value))
            && (r == Crashed ==> s'.store == s.store)
            && (UniqueEmails(cfg, s.store.users) && FixturesAlike(cfg, fixtures) && r.Ok? ==>
                  r.value.0 == |s'.store.users| - |s.store.users| && r.value.1 == |fixtures| - r.value.0)
  {
    if UniqueEmails(cfg, s.store.users) && FixturesAlike(cfg, fixtures) {
      if ServeSeed(cfg, s, fixtures, ids, fault).1.Ok? {
        SeedingSucceeds(cfg, s, fixtures, ids, fault);
      }
    }
  }
}
