/** The business counters against what has happened, over every run and every failing database call. */
module Counters {
  import opened Types
  import opened Jwt
  import opened Requests
  import opened Machine
  import opened Invariants
  import Acceptance
  import Accounts

  /** Calls made, calls cut short before they were counted, and successes counted whose request then failed. */
  datatype Totals = Totals(refreshes: nat, logins: nat, refreshCut: nat, loginCut: nat, refreshLost: nat,
                           loginLost: nat) {
    function Plus(t: Totals): Totals {
      Totals(refreshes + t.refreshes, logins + t.logins, refreshCut + t.refreshCut, loginCut + t.loginCut,
             refreshLost + t.refreshLost, loginLost + t.loginLost)
    }
  }

  const NONE := Totals(0, 0, 0, 0, 0, 0)

  function One(b: bool): nat {
    if b then 1 else 0
  }

  /** A refresh fails uncounted when a call up to the cleanup raises, and counted when the insert or the commit does;
      a login fails uncounted when its lookup raises, as it does when it meets two accounts. */
  function Count(cfg: Config, s: Sys, l: Label): Totals {
    match l
    case RefreshCall(raw, t, _, fault) =>
      var j := Judge(s, raw, t);
      NONE.(refreshes := 1, refreshCut := One(Fails(fault, CallsBefore(j))),
            refreshLost := One(j.Fit? && (fault == Some(4) || fault == Some(5))))
    case LoginCall(email, password, _, _, fault) =>
      NONE.(logins := 1, loginCut := One(fault == Some(0) || FindByEmail(cfg, s.store.users, email).Many?),
            loginLost := One(Authenticate(cfg, s.store.users, s.tally, email, password, fault).1.Ok?
                             && (fault == Some(1) || fault == Some(2))))
    case _ => NONE
  }

  function CountRun(cfg: Config, w: World, run: seq<Label>): Totals
    requires Legal(cfg, w, run)
    decreases |run|
  {
    if run == [] then NONE else Count(cfg, w.sys, run[0]).Plus(CountRun(cfg, Next(cfg, w, run[0]), run[1..]))
  }

  /** The four equations. */
  ghost predicate Balanced(w: World, t: Totals) {
    && w.sys.tally.refreshSuccess + w.sys.tally.refreshFailure + t.refreshCut == t.refreshes
    && w.sys.tally.authSuccess + w.sys.tally.authFailure + t.loginCut == t.logins
    && w.sys.tally.refreshSuccess == |w.hist.successor| + t.refreshLost
    && w.sys.tally.authSuccess + w.sys.tally.refreshSuccess == |w.hist.grants| + t.refreshLost + t.loginLost
  }

  lemma RefreshCounts(cfg: Config, s: Sys, l: Label)
    requires l.RefreshCall? && Sha256(l.jti) !in s.store.tokens
    ensures var (s', r) := Respond(cfg, s, l);
            && s'.tally.authSuccess == s.tally.authSuccess && s'.tally.authFailure == s.tally.authFailure
            && s'.tally.refreshSuccess + s'.tally.refreshFailure + Count(cfg, s, l).refreshCut ==
               s.tally.refreshSuccess + s.tally.refreshFailure + 1
            && s'.tally.refreshSuccess == s.tally.refreshSuccess + One(r.Ok?) + Count(cfg, s, l).refreshLost
  {
  }

  lemma LoginCounts(cfg: Config, s: Sys, l: Label)
    requires l.LoginCall? && Sha256(l.jti) !in s.store.tokens
    ensures var (s', r) := Respond(cfg, s, l);
            && s'.tally.refreshSuccess == s.tally.refreshSuccess && s'.tally.refreshFailure == s.tally.refreshFailure
            && s'.tally.authSuccess + s'.tally.authFailure + Count(cfg, s, l).loginCut ==
               s.tally.authSuccess + s.tally.authFailure + 1
            && s'.tally.authSuccess == s.tally.authSuccess + One(r.Ok?) + Count(cfg, s, l).loginLost
  {
  }

  lemma OtherCounts(cfg: Config, s: Sys, l: Label)
    requires !l.RefreshCall? && !l.LoginCall?
    requires l.SeedCall? ==> |l.ids| == |l.fixtures|
    ensures var t, t' := s.tally, Respond(cfg, s, l).0.tally;
            t' == t.(registrations := t'.registrations) && Count(cfg, s, l) == NONE
  {
  }

  lemma HandoutCounts(
    cfg: Config, w: World, w': World, user: UserId, t: IssueTimes, jti: Jti, parent: Option<Jti>,
    mid: map<JtiHash, Row>)
    requires Handout(cfg, w, w', user, t, jti, parent, mid) && Exchangeable(w, user, parent) && jti !in w.hist.grants
    ensures |w'.hist.grants| == |w.hist.grants| + 1
    ensures |w'.hist.successor| == |w.hist.successor| + One(parent.Some?)
  {
    assert w'.hist.grants.Keys == w.hist.grants.Keys + {jti};
    if parent.Some? {
      assert w'.hist.successor.Keys == w.hist.successor.Keys + {parent.value};
    }
  }

  /** A refresh hands out one token for one exchanged, a login hands out one; nothing else does. */
  lemma StepHands(cfg: Config, w: World, l: Label)
    requires Inv(cfg, w) && Enabled(w, l)
    ensures var v, ok := Next(cfg, w, l), Respond(cfg, w.sys, l).1.Ok?;
            && |v.hist.grants| == |w.hist.grants| + One((l.RefreshCall? || l.LoginCall?) && ok)
            && |v.hist.successor| == |w.hist.successor| + One(l.RefreshCall? && ok)
  {
    if l.RefreshCall? && Respond(cfg, w.sys, l).1.Ok? {
      FreshIsUnknown(cfg, w, l.jti);
      RefreshHandsOut(cfg, w, l);
      HandoutCounts(cfg, w, Next(cfg, w, l), Judge(w.sys, l.raw, l.at).user, l.at.issue, l.jti, l.raw.claims.jti,
                    RowsBeforeInsert(cfg, w, l));
    } else if l.LoginCall? && Respond(cfg, w.sys, l).1.Ok? {
      FreshIsUnknown(cfg, w, l.jti);
      LoginHandsOut(cfg, w, l);
      HandoutCounts(cfg, w, Next(cfg, w, l),
                    Authenticate(cfg, w.sys.store.users, w.sys.tally, l.email, l.password, l.fault).1.value,
                    l.times, l.jti, None, w.sys.store.tokens);
    }
  }

  lemma StepBalances(cfg: Config, w: World, l: Label, t: Totals)
    requires Inv(cfg, w) && Enabled(w, l) && Balanced(w, t)
    ensures Balanced(Next(cfg, w, l), t.Plus(Count(cfg, w.sys, l)))
  {
    StepHands(cfg, w, l);
    if l.RefreshCall? {
      FreshIsUnknown(cfg, w, l.jti);
      RefreshCounts(cfg, w.sys, l);
    } else if l.LoginCall? {
      FreshIsUnknown(cfg, w, l.jti);
      LoginCounts(cfg, w.sys, l);
    } else {
      OtherCounts(cfg, w.sys, l);
    }
  }

  lemma {:induction false} RunBalances(cfg: Config, w: World, run: seq<Label>, t: Totals)
    requires Inv(cfg, w) && Legal(cfg, w, run) && Balanced(w, t)
    ensures Balanced(Run(cfg, w, run), t.Plus(CountRun(cfg, w, run)))
    decreases |run|
  {
    if run != [] {
      NextKeeps(cfg, w, run[0]);
      StepBalances(cfg, w, run[0], t);
      RunBalances(cfg, Next(cfg, w, run[0]), run[1..], t.Plus(Count(cfg, w.sys, run[0])));
    }
  }

  /** After any run: refreshes counted plus those cut short are the refreshes made, likewise logins;
      successful refreshes are tokens exchanged plus those lost to a later failure, and successes of
      both kinds are tokens handed out plus those lost. */
  lemma CountersBalance(cfg: Config, w: World, run: seq<Label>)
    requires Initial(w) && Legal(cfg, w, run)
    ensures Balanced(Run(cfg, w, run), CountRun(cfg, w, run))
  {
    InitialHolds(cfg, w);
    RunBalances(cfg, w, run, NONE);
    FromNone(Run(cfg, w, run), CountRun(cfg, w, run));
  }

  lemma FromNone(w: World, t: Totals)
    requires Balanced(w, NONE.Plus(t))
    ensures Balanced(w, t)
  {
  }

  predicate FaultFree(run: seq<Label>) {
    forall i :: 0 <= i < |run| ==>
      (run[i].RefreshCall? ==> run[i].fault.None?) && (run[i].LoginCall? ==> run[i].fault.None?)
  }

  predicate Lossless(t: Totals) {
    t.refreshCut == t.refreshLost == t.loginLost == 0
  }

  lemma StepLosesNothing(cfg: Config, s: Sys, l: Label)
    requires (l.RefreshCall? ==> l.fault.None?) && (l.LoginCall? ==> l.fault.None?)
    ensures Lossless(Count(cfg, s, l))
    ensures Accounts.UniqueEmails(cfg, s.store.users) ==> Count(cfg, s, l).loginCut == 0
  {
    if l.LoginCall? && Accounts.UniqueEmails(cfg, s.store.users) {
      Accounts.LookupIsExact(cfg, s.store.users, l.email);
    }
  }

  lemma {:induction false} NothingLost(cfg: Config, w: World, run: seq<Label>)
    requires Legal(cfg, w, run) && FaultFree(run)
    ensures Lossless(CountRun(cfg, w, run))
    decreases |run|
  {
    if run != [] {
      StepLosesNothing(cfg, w.sys, run[0]);
      NothingLost(cfg, Next(cfg, w, run[0]), run[1..]);
    }
  }

  lemma {:induction false} NoLoginCut(cfg: Config, w: World, run: seq<Label>)
    requires Legal(cfg, w, run) && FaultFree(run)
    requires Accounts.UniqueEmails(cfg, w.sys.store.users) && Accounts.AllFoldAlike(cfg, run)
    ensures CountRun(cfg, w, run).loginCut == 0
    decreases |run|
  {
    if run != [] {
      StepLosesNothing(cfg, w.sys, run[0]);
      Accounts.StepStaysUnique(cfg, w, run[0]);
      NoLoginCut(cfg, Next(cfg, w, run[0]), run[1..]);
    }
  }

  /** Without an infrastructure failure the counters are exact; of those of logins, a login whose lookup meets two
      accounts goes uncounted, and there is none while folded emails are distinct. */
  lemma CountersAreExact(cfg: Config, w: World, run: seq<Label>)
    requires Initial(w) && Legal(cfg, w, run) && FaultFree(run)
    ensures var v, t := Run(cfg, w, run), CountRun(cfg, w, run);
            && v.sys.tally.refreshSuccess + v.sys.tally.refreshFailure == t.refreshes
            && v.sys.tally.refreshSuccess == |v.hist.successor|
            && v.sys.tally.authSuccess + v.sys.tally.refreshSuccess == |v.hist.grants|
            && (Accounts.UniqueEmails(cfg, w.sys.store.users) && Accounts.AllFoldAlike(cfg, run) ==>
                  v.sys.tally.authSuccess + v.sys.tally.authFailure == t.logins)
  {
    CountersBalance(cfg, w, run);
    NothingLost(cfg, w, run);
    if Accounts.UniqueEmails(cfg, w.sys.store.users) && Accounts.AllFoldAlike(cfg, run) {
      NoLoginCut(cfg, w, run);
    }
  }

  // ---- registrations -------------------------------------------------------------------------------

  /** The registration succeeds, or would have but for its commit raising. */
  predicate Registers(cfg: Config, s: Sys, l: Label) {
    && l.RegisterCall?
    && var unfailing := RegisterCall(l.id, l.email, l.password, l.fullName, None);
       (Respond(cfg, s, l).1.Ok? || (l.fault == Some(2) && Respond(cfg, s, unfailing).1.Ok?))
  }

  function Registrations(cfg: Config, w: World, run: seq<Label>): nat
    requires Legal(cfg, w, run)
    decreases |run|
  {
    if run == [] then 0
    else One(Registers(cfg, w.sys, run[0])) + Registrations(cfg, Next(cfg, w, run[0]), run[1..])
  }

  lemma StepRegisters(cfg: Config, s: Sys, l: Label)
    requires l.SeedCall? ==> |l.ids| == |l.fixtures|
    ensures Respond(cfg, s, l).0.tally.registrations == s.tally.registrations + One(Registers(cfg, s, l))
  {
  }

  /** The registrations counted are those that succeeded and those whose commit then raised. */
  lemma {:induction false} RegistrationsAreCounted(cfg: Config, w: World, run: seq<Label>)
    requires Legal(cfg, w, run)
    ensures Run(cfg, w, run).sys.tally.registrations == w.sys.tally.registrations + Registrations(cfg, w, run)
    decreases |run|
  {
    if run != [] {
      StepRegisters(cfg, w.sys, run[0]);
      RegistrationsAreCounted(cfg, Next(cfg, w, run[0]), run[1..]);
    }
  }
}
