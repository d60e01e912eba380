/** Accounts: while the two foldings of an email agree, registering and seeding never give two accounts one folded
    email; and exactly then. */
module Accounts {
  import opened Types
  import opened Requests
  import opened Machine

  /** No two accounts have one email to the database. */
  ghost predicate UniqueEmails(cfg: Config, users: map<UserId, User>) {
    forall a, b :: a in users && b in users && a != b ==> cfg.dbFold(users[a].email) != cfg.dbFold(users[b].email)
  }

  /** The database and the application fold the email alike. */
  predicate Alike(cfg: Config, email: string) {
    cfg.dbFold(email) == cfg.appFold(email)
  }

  ghost predicate Extends(before: map<UserId, User>, after: map<UserId, User>) {
    forall id :: id in before ==> id in after && after[id] == before[id]
  }

  ghost predicate Resolvable(cfg: Config, users: map<UserId, User>, email: string) {
    FindByEmail(cfg, users, email).One?
  }

  // ---- the lookup ----------------------------------------------------------------------------------

  /** The lookup by email never meets two accounts, and finds one exactly when one has that email. */
  lemma LookupIsExact(cfg: Config, users: map<UserId, User>, email: string)
    requires UniqueEmails(cfg, users)
    ensures !FindByEmail(cfg, users, email).Many?
    ensures Resolvable(cfg, users, email) <==>
            exists id :: id in users && cfg.dbFold(users[id].email) == cfg.appFold(email)
    ensures forall id :: id in users && cfg.dbFold(users[id].email) == cfg.appFold(email) ==>
              FindByEmail(cfg, users, email) == One(id)
  {
    forall id | id in users && cfg.dbFold(users[id].email) == cfg.appFold(email)
      ensures Matches(cfg, users, email) == {id}
    {
      assert id in Matches(cfg, users, email);
    }
    var found := Matches(cfg, users, email);
    if found != {} {
      var id :| id in found;
      assert found == {id};
    }
  }

  /** The lookup of an email meets two accounts exactly when two accounts match it. */
  lemma LookupMeetsTwo(cfg: Config, users: map<UserId, User>, email: string)
    ensures FindByEmail(cfg, users, email).Many? <==>
            exists a, b :: a in users && b in users && a != b
                           && cfg.dbFold(users[a].email) == cfg.appFold(email) == cfg.dbFold(users[b].email)
  {
    var found := Matches(cfg, users, email);
    assert forall a :: a in users && cfg.dbFold(users[a].email) == cfg.appFold(email) ==> a in found;
    if FindByEmail(cfg, users, email).Many? {
      var a :| a in found;
      assert found != {a};
      var b :| b in found && b != a;
    } else if FindByEmail(cfg, users, email).One? {
      var id := FindByEmail(cfg, users, email).id;
      assert forall a :: a in found ==> a == id;
    }
  }

  // ---- adding an account ---------------------------------------------------------------------------

  /** For an email folded alike, the unique column can only refuse what the lookup has already refused. */
  lemma AbsentEmailInserts(cfg: Config, users: map<UserId, User>, id: UserId, user: User)
    requires UniqueEmails(cfg, users) && FindByEmail(cfg, users, user.email).NoMatch? && id !in users
    requires Alike(cfg, user.email)
    ensures !UserClash(users, id, user.email)
    ensures UniqueEmails(cfg, users[id := user]) && Extends(users, users[id := user])
    ensures FindByEmail(cfg, users[id := user], user.email) == One(id)
  {
    assert forall other :: other in users ==> other !in Matches(cfg, users, user.email);
    LookupIsExact(cfg, users[id := user], user.email);
  }

  /** An email that is not folded alike does not resolve once it is registered, and registering it again fails on
      the unique column instead of being refused as a conflict. */
  lemma UnlikeFoldsHide(cfg: Config, users: map<UserId, User>, id: UserId, again: UserId, user: User, tally: Tally)
    requires !Alike(cfg, user.email) && FindByEmail(cfg, users, user.email).NoMatch? && id !in users
    ensures FindByEmail(cfg, users[id := user], user.email).NoMatch?
    ensures Enroll(cfg, users[id := user], tally, again, user.email, "", None, None)
         == (users[id := user], tally, Crashed)
  {
    var more := users[id := user];
    assert forall other :: other in users ==> other !in Matches(cfg, users, user.email);
    assert forall other :: other in more ==> other !in Matches(cfg, more, user.email);
    assert Matches(cfg, more, user.email) == {};
    assert id in more && more[id].email == user.email;
  }

  /** No other email is the same to the database. */
  ghost predicate Alone(cfg: Config, email: string) {
    forall other :: other != email ==> cfg.dbFold(other) != cfg.dbFold(email)
  }

  ghost predicate RegistersSafely(cfg: Config, email: string) {
    forall users, id :: UniqueEmails(cfg, users) ==>
      UniqueEmails(cfg, Enroll(cfg, users, Tally(0, 0, 0, 0, 0), id, email, "", None, None).0)
  }

  /** Registering an email keeps folded emails distinct, whatever accounts there are, exactly when the two foldings
      agree on it or no other email is the same to the database. */
  lemma SafeExactlyWhen(cfg: Config, email: string)
    ensures RegistersSafely(cfg, email) <==> Alike(cfg, email) || Alone(cfg, email)
  {
    if Alike(cfg, email) || Alone(cfg, email) {
      forall users, id | UniqueEmails(cfg, users)
        ensures UniqueEmails(cfg, Enroll(cfg, users, Tally(0, 0, 0, 0, 0), id, email, "", None, None).0)
      {
        EnrollingIsSafe(cfg, users, id, email);
      }
    } else {
      var other :| other != email && cfg.dbFold(other) == cfg.dbFold(email);
      var users := map[0 := NewUser(other, "", None)];
      assert Matches(cfg, users, email) == {};
      var after := Enroll(cfg, users, Tally(0, 0, 0, 0, 0), 1, email, "", None, None).0;
      assert after == users[1 := NewUser(email, "", None)];
      assert 0 in after && 1 in after && after[0].email == other && after[1].email == email;
      assert UniqueEmails(cfg, users) && !UniqueEmails(cfg, after);
    }
  }

  lemma EnrollingIsSafe(cfg: Config, users: map<UserId, User>, id: UserId, email: string)
    requires UniqueEmails(cfg, users) && (Alike(cfg, email) || Alone(cfg, email))
    ensures UniqueEmails(cfg, Enroll(cfg, users, Tally(0, 0, 0, 0, 0), id, email, "", None, None).0)
  {
    var after := Enroll(cfg, users, Tally(0, 0, 0, 0, 0), id, email, "", None, None);
    if after.2.Ok? {
      assert forall other :: other in users ==> other !in Matches(cfg, users, email) && users[other].email != email;
    }
  }

  lemma ExtensionKeepsResolvable(cfg: Config, before: map<UserId, User>, after: map<UserId, User>, email: string)
    requires UniqueEmails(cfg, before) && UniqueEmails(cfg, after) && Extends(before, after)
    requires Resolvable(cfg, before, email)
    ensures FindByEmail(cfg, after, email) == FindByEmail(cfg, before, email)
  {
    LookupIsExact(cfg, before, email);
    LookupIsExact(cfg, after, email);
  }

  /** Registration succeeds exactly on an unused identifier and email, and then the email resolves to it. */
  lemma RegisterIsExact(cfg: Config, s: Sys, id: UserId, email: string, password: string, fullName: Option<string>)
    requires UniqueEmails(cfg, s.store.users) && Alike(cfg, email)
    ensures var (s', r) := ServeRegister(cfg, s, id, email, password, fullName, None);
            && (r.Ok? <==> id !in s.store.users && !Resolvable(cfg, s.store.users, email))
            && (r.Refused? <==> Resolvable(cfg, s.store.users, email))
            && (r.Refused? ==> r == Refused(Conflict("A user with this email already exists.")))
            && (r.Ok? ==> r.value == id && FindByEmail(cfg, s'.store.users, email) == One(id)
                          && s'.store.users == s.store.users[id :=
                                                             User(email, Argon2(password), fullName, true, false)])
            && (!r.Ok? ==> s'.store == s.store)
  {
    LookupIsExact(cfg, s.store.users, email);
    if id !in s.store.users && !Resolvable(cfg, s.store.users, email) {
      AbsentEmailInserts(cfg, s.store.users, id, NewUser(email, password, fullName));
    }
  }

  // ---- seeding -------------------------------------------------------------------------------------

  ghost predicate FixturesAlike(cfg: Config, fixtures: seq<Fixture>) {
    forall f :: f in fixtures && f.email.Some? ==> Alike(cfg, f.email.value)
  }

  /** What one round does to the accounts. */
  lemma OneExtends(cfg: Config, users: map<UserId, User>, f: Fixture, id: UserId, fault: Option<nat>, calls: nat)
    ensures var one := PlantOne(cfg, users, f, id, fault, calls);
            Extends(users, one.users) && one.created <= 1 && |one.users| == |users| + one.created
  {
    if id !in users && f.email.Some? {
      assert users[id := FixtureUser(f)].Keys == users.Keys + {id};
    }
  }

  lemma OneKeepsUnique(cfg: Config, users: map<UserId, User>, f: Fixture, id: UserId, fault: Option<nat>, calls: nat)
    requires UniqueEmails(cfg, users) && (f.email.Some? ==> Alike(cfg, f.email.value))
    ensures var one := PlantOne(cfg, users, f, id, fault, calls);
            && UniqueEmails(cfg, one.users)
            && (one.whole ==> f.email.Some? && Resolvable(cfg, one.users, f.email.value))
  {
    if f.email.Some? && id !in users && FindByEmail(cfg, users, f.email.value).NoMatch? {
      AbsentEmailInserts(cfg, users, id, FixtureUser(f));
    }
  }

  /** Wherever seeding stops, it has only added accounts. */
  lemma {:induction false} PlantExtends(
    cfg: Config, users: map<UserId, User>, fixtures: seq<Fixture>, ids: seq<UserId>, fault: Option<nat>, calls: nat)
    requires |ids| == |fixtures|
    ensures var r := Plant(cfg, users, fixtures, ids, fault, calls);
            Extends(users, r.users) && r.created <= |fixtures| && |r.users| == |users| + r.created
    decreases |fixtures|
  {
    if fixtures != [] {
      var one := PlantOne(cfg, users, fixtures[0], ids[0], fault, calls);
      OneExtends(cfg, users, fixtures[0], ids[0], fault, calls);
      PlantExtends(cfg, one.users, fixtures[1..], ids[1..], fault, one.calls);
    }
  }

  /** Wherever seeding stops, folded emails are distinct. */
  lemma {:induction false} PlantKeepsUnique(
    cfg: Config, users: map<UserId, User>, fixtures: seq<Fixture>, ids: seq<UserId>, fault: Option<nat>, calls: nat)
    requires |ids| == |fixtures| && UniqueEmails(cfg, users) && FixturesAlike(cfg, fixtures)
    ensures UniqueEmails(cfg, Plant(cfg, users, fixtures, ids, fault, calls).users)
    decreases |fixtures|
  {
    if fixtures != [] {
      var one := PlantOne(cfg, users, fixtures[0], ids[0], fault, calls);
      assert fixtures[0] in fixtures;
      OneKeepsUnique(cfg, users, fixtures[0], ids[0], fault, calls);
      PlantKeepsUnique(cfg, one.users, fixtures[1..], ids[1..], fault, one.calls);
    }
  }

  ghost predicate AllResolve(cfg: Config, users: map<UserId, User>, fixtures: seq<Fixture>) {
    forall f :: f in fixtures ==> f.email.Some? && Resolvable(cfg, users, f.email.value)
  }

  /** A seeding that gets through makes every fixture email resolvable. */
  lemma {:induction false} PlantResolves(
    cfg: Config, users: map<UserId, User>, fixtures: seq<Fixture>, ids: seq<UserId>, fault: Option<nat>, calls: nat)
    requires |ids| == |fixtures| && UniqueEmails(cfg, users) && FixturesAlike(cfg, fixtures)
    requires Plant(cfg, users, fixtures, ids, fault, calls).whole
    ensures AllResolve(cfg, Plant(cfg, users, fixtures, ids, fault, calls).users, fixtures)
    decreases |fixtures|
  {
    if fixtures != [] {
      var f, one := fixtures[0], PlantOne(cfg, users, fixtures[0], ids[0], fault, calls);
      assert f in fixtures;
      OneKeepsUnique(cfg, users, f, ids[0], fault, calls);
      PlantResolves(cfg, one.users, fixtures[1..], ids[1..], fault, one.calls);
      PlantKeepsUnique(cfg, one.users, fixtures[1..], ids[1..], fault, one.calls);
      PlantExtends(cfg, one.users, fixtures[1..], ids[1..], fault, one.calls);
      var end := Plant(cfg, one.users, fixtures[1..], ids[1..], fault, one.calls).users;
      ExtensionKeepsResolvable(cfg, one.users, end, f.email.value);
      assert fixtures == [f] + fixtures[1..];
      assert Plant(cfg, users, fixtures, ids, fault, calls).users == end;
    }
  }

  /** Once every fixture email resolves, seeding creates nothing. */
  lemma {:induction false} PlantTwice(
    cfg: Config, users: map<UserId, User>, fixtures: seq<Fixture>, ids: seq<UserId>, calls: nat)
    requires |ids| == |fixtures|
    requires AllResolve(cfg, users, fixtures)
    ensures var r := Plant(cfg, users, fixtures, ids, None, calls);
            r.whole && r.created == 0 && r.users == users
    decreases |fixtures|
  {
    if fixtures != [] {
      PlantTwice(cfg, users, fixtures[1..], ids[1..], calls + 1);
    }
  }

  /** What a seeding that gets through leaves: existing accounts as they were, `created` new ones, and
      every fixture email resolvable. */
  ghost predicate SeededFrom(
    cfg: Config, users: map<UserId, User>, users': map<UserId, User>, fixtures: seq<Fixture>, created: int)
  {
    && UniqueEmails(cfg, users') && Extends(users, users')
    && 0 <= created <= |fixtures| && |users'| == |users| + created
    && AllResolve(cfg, users', fixtures)
  }

  lemma WholePlantSeeds(
    cfg: Config, users: map<UserId, User>, fixtures: seq<Fixture>, ids: seq<UserId>, fault: Option<nat>)
    requires |ids| == |fixtures| && UniqueEmails(cfg, users) && FixturesAlike(cfg, fixtures)
    requires Plant(cfg, users, fixtures, ids, fault, 0).whole
    ensures var r := Plant(cfg, users, fixtures, ids, fault, 0); SeededFrom(cfg, users, r.users, fixtures, r.created)
  {
    PlantKeepsUnique(cfg, users, fixtures, ids, fault, 0);
    PlantExtends(cfg, users, fixtures, ids, fault, 0);
    PlantResolves(cfg, users, fixtures, ids, fault, 0);
  }

  /** A seeding that succeeds leaves every existing account as it was, makes every fixture email
      resolvable, and reports created + skipped equal to the file length. */
  lemma SeedingSucceeds(cfg: Config, s: Sys, fixtures: seq<Fixture>, ids: seq<UserId>, fault: Option<nat>)
    requires |ids| == |fixtures| && UniqueEmails(cfg, s.store.users) && FixturesAlike(cfg, fixtures)
    requires ServeSeed(cfg, s, fixtures, ids, fault).1.Ok?
    ensures var (s', r) := ServeSeed(cfg, s, fixtures, ids, fault);
            && SeededFrom(cfg, s.store.users, s'.store.users, fixtures, r.value.0)
            && r.value.0 + r.value.1 == |fixtures| && s'.store.tokens == s.store.tokens
  {
    WholePlantSeeds(cfg, s.store.users, fixtures, ids, fault);
  }

  /** A second seeding, at any later time while the emails still resolve, creates nothing and changes nothing. */
  lemma SeedingTwiceCreatesNothing(cfg: Config, s: Sys, fixtures: seq<Fixture>, ids: seq<UserId>)
    requires |ids| == |fixtures|
    requires AllResolve(cfg, s.store.users, fixtures)
    ensures ServeSeed(cfg, s, fixtures, ids, None) == (s, Ok((0, |fixtures|)))
  {
    PlantTwice(cfg, s.store.users, fixtures, ids, 0);
  }

  /** With fresh identifiers and no call that raises, seeding is whole exactly when every fixture has an email. */
  lemma {:induction false} FreshSeedingIsWhole(
    cfg: Config, users: map<UserId, User>, fixtures: seq<Fixture>, ids: seq<UserId>, calls: nat)
    requires |ids| == |fixtures| && UniqueEmails(cfg, users) && FixturesAlike(cfg, fixtures)
    requires forall i :: 0 <= i < |ids| ==> ids[i] !in users
    requires forall i, k :: 0 <= i < k < |ids| ==> ids[i] != ids[k]
    ensures Plant(cfg, users, fixtures, ids, None, calls).whole <==> forall f :: f in fixtures ==> f.email.Some?
    decreases |fixtures|
  {
    if fixtures != [] && fixtures[0].email.Some? {
      var one := PlantOne(cfg, users, fixtures[0], ids[0], None, calls);
      assert fixtures == [fixtures[0]] + fixtures[1..];
      assert fixtures[0] in fixtures;
      LookupIsExact(cfg, users, fixtures[0].email.value);
      if !Resolvable(cfg, users, fixtures[0].email.value) {
        AbsentEmailInserts(cfg, users, ids[0], FixtureUser(fixtures[0]));
      }
      FreshSeedingIsWhole(cfg, one.users, fixtures[1..], ids[1..], one.calls);
    }
  }

  // ---- every run -----------------------------------------------------------------------------------

  ghost predicate FoldAlike(cfg: Config, l: Label) {
    match l
    case RegisterCall(_, email, _, _, _) => Alike(cfg, email)
    case SeedCall(fixtures, _, _) => FixturesAlike(cfg, fixtures)
    case _ => true
  }

  ghost predicate AllFoldAlike(cfg: Config, run: seq<Label>) {
    forall i :: 0 <= i < |run| ==> FoldAlike(cfg, run[i])
  }

  /** Only registering and seeding add accounts or emails. */
  lemma OthersAddNoEmail(cfg: Config, s: Sys, l: Label)
    requires !l.RegisterCall? && !l.SeedCall?
    ensures var users, users' := s.store.users, Respond(cfg, s, l).0.store.users;
            forall id :: id in users' ==> id in users && users'[id].email == users[id].email
  {
  }

  lemma StepStaysUnique(cfg: Config, w: World, l: Label)
    requires Enabled(w, l) && UniqueEmails(cfg, w.sys.store.users) && FoldAlike(cfg, l)
    ensures UniqueEmails(cfg, Next(cfg, w, l).sys.store.users)
  {
    var users := w.sys.store.users;
    if l.RegisterCall? {
      if FindByEmail(cfg, users, l.email).NoMatch? && l.id !in users {
        AbsentEmailInserts(cfg, users, l.id, NewUser(l.email, l.password, l.fullName));
      }
    } else if l.SeedCall? {
      PlantKeepsUnique(cfg, users, l.fixtures, l.ids, l.fault, 0);
    } else {
      OthersAddNoEmail(cfg, w.sys, l);
    }
  }

  /** In every run whose registrations and seedings use emails folded alike, no two accounts ever share a folded
      email, so no lookup meets two accounts. */
  lemma {:induction false} AccountsStayUnique(cfg: Config, w: World, run: seq<Label>, email: string)
    requires Legal(cfg, w, run) && UniqueEmails(cfg, w.sys.store.users) && AllFoldAlike(cfg, run)
    ensures UniqueEmails(cfg, Run(cfg, w, run).sys.store.users)
    ensures !FindByEmail(cfg, Run(cfg, w, run).sys.store.users, email).Many?
    decreases |run|
  {
    if run == [] {
      LookupIsExact(cfg, w.sys.store.users, email);
    } else {
      StepStaysUnique(cfg, w, run[0]);
      AccountsStayUnique(cfg, Next(cfg, w, run[0]), run[1..], email);
    }
  }
}
