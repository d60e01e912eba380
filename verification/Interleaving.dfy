/** Refreshes split into lookup, write and commit, interleaved arbitrarily with each other, with logins and
    with an administrator's deletions. The code takes no row lock; its contract asks clients to serialise
    refreshes (`docs/api-contract.md`), and under that condition a token is still exchanged at most once. */
module Interleaving {
  import opened Types
  import opened Jwt
  import opened Requests
  import Cleanup

  /** `Written` holds what the flushes put into the request's own transaction. */
  datatype Phase =
    | Decoded
    | Found(check: Instant)
    | Written(check: Instant, revokedAt: Instant, swept: set<JtiHash>, row: Row)

  /** A refresh in flight: the token it presents, whose JWT decoded, and the identifier it draws. */
  datatype Flight = Flight(presented: Jti, user: UserId, next: Jti, phase: Phase)

  datatype Net = Net(tokens: map<JtiHash, Row>, flights: map<nat, Flight>, exchanges: multiset<Jti>, drawn: set<Jti>)

  datatype Move =
    | Arrive(id: nat, presented: Jti, user: UserId, next: Jti)
    | Look(id: nat, check: Instant)
    | Write(id: nat, revoke: Instant, cleanup: Instant, row: Row)
    | Commit(id: nat)
    | Abort(id: nat)
    | LoggedIn(jti: Jti, row: Row)
    | Remove(hash: JtiHash)

  /** Moves anyone may make; `serial` adds what the contract asks: a token is presented by one request at a time. */
  predicate Enabled(n: Net, m: Move, serial: bool) {
    match m
    case Arrive(id, presented, _, next) =>
      && id !in n.flights && presented in n.drawn && next !in n.drawn
      && (serial ==> forall k :: k in n.flights ==> n.flights[k].presented != presented)
    case Look(id, _) => id in n.flights && n.flights[id].phase.Decoded?
    case Write(id, _, _, row) =>
      id in n.flights && n.flights[id].phase.Found? && row.userId == n.flights[id].user && row.revokedAt.None?
    case Commit(id) => id in n.flights && n.flights[id].phase.Written?
    case Abort(id) => id in n.flights
    case LoggedIn(jti, row) => jti !in n.drawn && row.revokedAt.None?
    case Remove(_) => true
  }

  function Expired(tokens: map<JtiHash, Row>, now: Instant): set<JtiHash> {
    set h | h in tokens && tokens[h].expiresAt < now
  }

  /** The transaction of a flight applied to what is committed by then. */
  function Applied(tokens: map<JtiHash, Row>, f: Flight): map<JtiHash, Row>
    requires f.phase.Written?
  {
    var h := Sha256(f.presented);
    var revoked := if h in tokens then Revoked(tokens, h, f.phase.revokedAt) else tokens;
    (revoked - f.phase.swept)[Sha256(f.next) := f.phase.row]
  }

  /** A lookup that finds no acceptable row, and a revocation whose row has gone, end the request. */
  function Step(n: Net, m: Move, serial: bool): Net
    requires Enabled(n, m, serial)
  {
    match m
    case Arrive(id, presented, user, next) =>
      n.(flights := n.flights[id := Flight(presented, user, next, Decoded)], drawn := n.drawn + {next})
    case Look(id, check) =>
      var h := Sha256(n.flights[id].presented);
      if h !in n.tokens || n.tokens[h].revokedAt.Some? || n.tokens[h].expiresAt < check
      then n.(flights := n.flights - {id})
      else n.(flights := n.flights[id := n.flights[id].(phase := Found(check))])
    case Write(id, revoke, cleanup, row) =>
      if Sha256(n.flights[id].presented) !in n.tokens || Sha256(n.flights[id].next) in n.tokens
      then n.(flights := n.flights - {id})
      else
        var phase := Written(n.flights[id].phase.check, revoke, Expired(n.tokens, cleanup), row);
        n.(flights := n.flights[id := n.flights[id].(phase := phase)])
    case Commit(id) =>
      n.(tokens := Applied(n.tokens, n.flights[id]), flights := n.flights - {id},
         exchanges := n.exchanges + multiset{n.flights[id].presented})
    case Abort(id) => n.(flights := n.flights - {id})
    case LoggedIn(jti, row) => n.(tokens := n.tokens[Sha256(jti) := row], drawn := n.drawn + {jti})
    case Remove(h) => n.(tokens := n.tokens - {h})
  }

  predicate Legal(n: Net, run: seq<Move>, serial: bool)
    decreases |run|
  {
    run == [] || (Enabled(n, run[0], serial) && Legal(Step(n, run[0], serial), run[1..], serial))
  }

  function Run(n: Net, run: seq<Move>, serial: bool): Net
    requires Legal(n, run, serial)
    decreases |run|
  {
    if run == [] then n else Run(Step(n, run[0], serial), run[1..], serial)
  }

  // ---- at most once --------------------------------------------------------------------------------

  ghost predicate Usable(tokens: map<JtiHash, Row>, j: Jti) {
    Sha256(j) in tokens && tokens[Sha256(j)].revokedAt.None?
  }

  /** Past its lookup. */
  predicate Past(f: Flight) {
    !f.phase.Decoded?
  }

  ghost predicate Drawn(n: Net) {
    && (forall h :: h in n.tokens ==> h.jti in n.drawn)
    && (forall k :: k in n.flights ==> n.flights[k].presented in n.drawn && n.flights[k].next in n.drawn)
    && (forall j :: j in n.exchanges ==> j in n.drawn)
  }

  /** No two flights present one token, or draw one identifier. */
  ghost predicate Apart(n: Net) {
    forall k, l :: k in n.flights && l in n.flights && k != l ==>
      n.flights[k].presented != n.flights[l].presented && n.flights[k].next != n.flights[l].next
  }

  /** What a flight has drawn has no row yet and was never exchanged, nor is it what one past its lookup presents. */
  ghost predicate Pending(n: Net) {
    && (forall k :: k in n.flights ==> Sha256(n.flights[k].next) !in n.tokens && n.flights[k].next !in n.exchanges)
    && (forall k, l :: k in n.flights && l in n.flights && Past(n.flights[k]) ==>
        n.flights[k].presented != n.flights[l].next)
    && (forall k :: k in n.flights && n.flights[k].phase.Written? ==> n.flights[k].phase.row.revokedAt.None?)
  }

  /** An exchanged token is unusable, was exchanged once, and no flight past its lookup presents it. */
  ghost predicate Single(n: Net) {
    && (forall j :: j in n.exchanges ==> n.exchanges[j] == 1 && !Usable(n.tokens, j))
    && (forall k :: k in n.flights && Past(n.flights[k]) ==> n.flights[k].presented !in n.exchanges)
  }

  ghost predicate Inv(n: Net) {
    Drawn(n) && Apart(n) && Pending(n) && Single(n)
  }

  lemma CommitKeeps(n: Net, m: Move)
    requires Inv(n) && Enabled(n, m, true) && m.Commit?
    ensures Inv(Step(n, m, true))
  {
    var n', f := Step(n, m, true), n.flights[m.id];
    forall h | h in n'.tokens
      ensures h == Sha256(f.next) || (h in n.tokens && (h == Sha256(f.presented) || n'.tokens[h] == n.tokens[h]))
      ensures h == Sha256(f.presented) ==> n'.tokens[h].revokedAt.Some?
    {
    }
    assert Drawn(n') && Apart(n') && Pending(n');
    forall j | j in n'.exchanges
      ensures n'.exchanges[j] == 1 && !Usable(n'.tokens, j)
    {
      assert j == f.presented || (j in n.exchanges && Sha256(j) != Sha256(f.next));
    }
  }

  /** Only flights have changed: some ended, one got further, past its lookup only on a usable row. */
  ghost predicate Onward(n: Net, n': Net) {
    && n'.tokens == n.tokens && n'.exchanges == n.exchanges && n'.drawn == n.drawn
    && forall k :: k in n'.flights ==>
         && k in n.flights
         && n'.flights[k].presented == n.flights[k].presented && n'.flights[k].next == n.flights[k].next
         && (Past(n'.flights[k]) ==> Past(n.flights[k]) || Usable(n.tokens, n.flights[k].presented))
         && (n'.flights[k].phase.Written? ==> n'.flights[k].phase.row.revokedAt.None?)
  }

  lemma FlightOnward(n: Net, m: Move)
    requires Pending(n) && Enabled(n, m, true) && (m.Look? || m.Write? || m.Abort?)
    ensures Onward(n, Step(n, m, true))
  {
  }

  lemma OnwardKeeps(n: Net, n': Net)
    requires Inv(n) && Onward(n, n')
    ensures Inv(n')
  {
    OnwardPending(n, n');
    OnwardSingle(n, n');
  }

  lemma OnwardPending(n: Net, n': Net)
    requires Pending(n) && Onward(n, n')
    ensures Pending(n')
  {
    forall k, l | k in n'.flights && l in n'.flights && Past(n'.flights[k])
      ensures n'.flights[k].presented != n'.flights[l].next
    {
      if Past(n.flights[k]) {
      } else {
        assert Usable(n.tokens, n.flights[k].presented) && Sha256(n.flights[l].next) !in n.tokens;
      }
    }
  }

  lemma OnwardSingle(n: Net, n': Net)
    requires Single(n) && Onward(n, n')
    ensures Single(n')
  {
  }

  lemma ArriveSeparate(n: Net, m: Move)
    requires Drawn(n) && Apart(n) && Enabled(n, m, true) && m.Arrive?
    ensures Drawn(Step(n, m, true)) && Apart(Step(n, m, true))
  {
  }

  lemma ArrivePending(n: Net, m: Move)
    requires Drawn(n) && Pending(n) && Enabled(n, m, true) && m.Arrive?
    ensures Pending(Step(n, m, true))
  {
    var n' := Step(n, m, true);
    assert Sha256(m.next).jti == m.next;
    forall k, l | k in n'.flights && l in n'.flights && Past(n'.flights[k])
      ensures n'.flights[k].presented != n'.flights[l].next
    {
      assert k in n.flights && n'.flights[k] == n.flights[k];
      if l == m.id {
        assert n.flights[k].presented in n.drawn;
      }
    }
  }

  lemma ArriveKeeps(n: Net, m: Move)
    requires Inv(n) && Enabled(n, m, true) && m.Arrive?
    ensures Inv(Step(n, m, true))
  {
    ArriveSeparate(n, m);
    ArrivePending(n, m);
    assert Single(Step(n, m, true));
  }

  lemma RowsKeep(n: Net, m: Move)
    requires Inv(n) && Enabled(n, m, true) && (m.LoggedIn? || m.Remove?)
    ensures Inv(Step(n, m, true))
  {
    var n' := Step(n, m, true);
    assert m.LoggedIn? ==> forall j :: j in n.drawn ==> Sha256(j) != Sha256(m.jti);
    assert Drawn(n') && Apart(n');
    assert Pending(n') && Single(n');
  }

  lemma StepKeeps(n: Net, m: Move)
    requires Inv(n) && Enabled(n, m, true)
    ensures Inv(Step(n, m, true))
  {
    match m
    case Arrive(_, _, _, _) => ArriveKeeps(n, m);
    case Commit(_) => CommitKeeps(n, m);
    case LoggedIn(_, _) => RowsKeep(n, m);
    case Remove(_) => RowsKeep(n, m);
    case _ =>
      FlightOnward(n, m);
      OnwardKeeps(n, Step(n, m, true));
  }

  lemma {:induction false} RunKeeps(n: Net, run: seq<Move>)
    requires Inv(n) && Legal(n, run, true)
    ensures Inv(Run(n, run, true))
    decreases |run|
  {
    if run != [] {
      StepKeeps(n, run[0]);
      RunKeeps(Step(n, run[0], true), run[1..]);
    }
  }

  /** However serialised refreshes, logins and deletions interleave, each token is exchanged at most once. */
  lemma ExchangedAtMostOnce(n: Net, run: seq<Move>, j: Jti)
    requires n.flights == map[] && n.exchanges == multiset{} && Drawn(n)
    requires Legal(n, run, true)
    ensures Run(n, run, true).exchanges[j] <= 1
  {
    RunKeeps(n, run);
  }

  // ---- runs of four moves --------------------------------------------------------------------------

  lemma OneMove(n: Net, m: Move, rest: seq<Move>, serial: bool)
    ensures Legal(n, [m] + rest, serial) <==> Enabled(n, m, serial) && Legal(Step(n, m, serial), rest, serial)
    ensures Legal(n, [m] + rest, serial) ==> Run(n, [m] + rest, serial) == Run(Step(n, m, serial), rest, serial)
  {
    assert ([m] + rest)[1..] == rest;
  }

  predicate LegalFour(n: Net, a: Move, b: Move, c: Move, d: Move, serial: bool) {
    && Enabled(n, a, serial)
    && var n1 := Step(n, a, serial);
    && Enabled(n1, b, serial)
    && var n2 := Step(n1, b, serial);
    && Enabled(n2, c, serial)
    && Enabled(Step(n2, c, serial), d, serial)
  }

  lemma FourMoves(n: Net, a: Move, b: Move, c: Move, d: Move, serial: bool)
    ensures Legal(n, [a, b, c, d], serial) <==> LegalFour(n, a, b, c, d, serial)
    ensures LegalFour(n, a, b, c, d, serial) ==>
              Run(n, [a, b, c, d], serial)
              == Step(Step(Step(Step(n, a, serial), b, serial), c, serial), d, serial)
  {
    assert [a, b, c, d] == [a] + [b, c, d] && [b, c, d] == [b] + [c, d] && [c, d] == [c] + [d] && [d] == [d] + [];
    OneMove(n, a, [b, c, d], serial);
    if Enabled(n, a, serial) {
      var n1 := Step(n, a, serial);
      OneMove(n1, b, [c, d], serial);
      if Enabled(n1, b, serial) {
        var n2 := Step(n1, b, serial);
        OneMove(n2, c, [d], serial);
        if Enabled(n2, c, serial) {
          OneMove(Step(n2, c, serial), d, [], serial);
        }
      }
    }
  }

  // ---- the condition is needed ---------------------------------------------------------------------

  /** Where two requests have both looked up one token, both can exchange it, exactly when the first one's
      cleanup does not take the row away. */
  lemma OverlapExchangesTwice(n: Net, a: nat, b: nat, t: RefreshTimes, u: RefreshTimes, first: Row, second: Row)
    requires a != b && a in n.flights && b in n.flights
    requires n.flights[a].phase.Found? && n.flights[b].phase.Found?
    requires n.flights[a].presented == n.flights[b].presented && n.flights[a].next != n.flights[b].next
    requires n.flights[a].user == n.flights[b].user == first.userId == second.userId
    requires first.revokedAt.None? && second.revokedAt.None? && Sha256(n.flights[a].presented) in n.tokens
    requires forall k :: k in {a, b} ==>
               Sha256(n.flights[k].next) !in n.tokens && n.flights[k].next != n.flights[a].presented
    ensures var run := [Write(a, t.revoke, t.cleanup, first), Commit(a), Write(b, u.revoke, u.cleanup, second),
                        Commit(b)];
            && (Legal(n, run, false) <==> t.cleanup <= n.tokens[Sha256(n.flights[a].presented)].expiresAt)
            && (Legal(n, run, false) ==>
                  Run(n, run, false).exchanges[n.flights[a].presented] == n.exchanges[n.flights[a].presented] + 2)
  {
    var j := n.flights[a].presented;
    var n1 := Step(n, Write(a, t.revoke, t.cleanup, first), false);
    var n2 := Step(n1, Commit(a), false);
    assert Sha256(j) in n2.tokens <==> t.cleanup <= n.tokens[Sha256(j)].expiresAt;
    assert Sha256(n.flights[b].next) !in n2.tokens;
    FourMoves(n, Write(a, t.revoke, t.cleanup, first), Commit(a), Write(b, u.revoke, u.cleanup, second), Commit(b),
              false);
  }

  /** Two requests presenting at once a token that the service accepts from either of them, with what each then
      reads and writes. */
  function Arrivals(
    s: Sys, raw: RawToken, t: RefreshTimes, u: RefreshTimes, a: nat, b: nat, next: Jti, other: Jti): seq<Move>
    requires Judge(s, raw, t).Fit?
  {
    var j, user := raw.claims.jti.value, Judge(s, raw, t).user;
    [Arrive(a, j, user, next), Arrive(b, j, user, other), Look(a, t.check), Look(b, u.check)]
  }

  function Finishes(cfg: Config, s: Sys, raw: RawToken, t: RefreshTimes, u: RefreshTimes, a: nat, b: nat): seq<Move>
    requires Judge(s, raw, t).Fit?
  {
    var user := Judge(s, raw, t).user;
    [Write(a, t.revoke, t.cleanup, NewRow(cfg, user, t.issue)), Commit(a),
     Write(b, u.revoke, u.cleanup, NewRow(cfg, user, u.issue)), Commit(b)]
  }

  /** Whatever token the service would accept, two requests that present it at once, each at readings at which it
      is accepted, can both exchange it, exactly when the first one's cleanup still spares the row. Serialised,
      the second may not even arrive; one after the other, the second is refused. */
  lemma WithoutSerialisingTwice(
    cfg: Config, s: Sys, n: Net, raw: RawToken, t: RefreshTimes, u: RefreshTimes, a: nat, b: nat, next: Jti, other: Jti)
    requires cfg.cleanup && n.tokens == s.store.tokens && Drawn(n)
    requires Judge(s, raw, t).Fit? && Judge(s, raw, u).Fit?
    requires a != b && a !in n.flights && b !in n.flights
    requires next != other && next !in n.drawn && other !in n.drawn
    ensures var arrive, finish := Arrivals(s, raw, t, u, a, b, next, other), Finishes(cfg, s, raw, t, u, a, b);
            var j := raw.claims.jti.value;
            && Legal(n, arrive, false) && !Legal(n, arrive, true)
            && (Legal(Run(n, arrive, false), finish, false) <==> t.cleanup <= s.store.tokens[Sha256(j)].expiresAt)
            && (Legal(Run(n, arrive, false), finish, false) ==>
                  Run(Run(n, arrive, false), finish, false).exchanges[j] == n.exchanges[j] + 2)
    ensures !Judge(ServeRefresh(cfg, s, raw, t, next, None).0, raw, u).Fit?
  {
    var j, user := raw.claims.jti.value, Judge(s, raw, t).user;
    assert Sha256(j).jti == j && Sha256(next).jti == next && Sha256(other).jti == other;
    var n1 := Step(n, Arrive(a, j, user, next), false);
    var n2 := Step(n1, Arrive(b, j, user, other), false);
    var n3 := Step(n2, Look(a, t.check), false);
    FourMoves(n, Arrive(a, j, user, next), Arrive(b, j, user, other), Look(a, t.check), Look(b, u.check), false);
    OverlapExchangesTwice(Step(n3, Look(b, u.check), false), a, b, t, u, NewRow(cfg, user, t.issue),
                          NewRow(cfg, user, u.issue));
    FourMoves(n, Arrive(a, j, user, next), Arrive(b, j, user, other), Look(a, t.check), Look(b, u.check), true);
    SecondIsRefused(cfg, s, raw, t, u, next);
  }

  lemma SecondIsRefused(cfg: Config, s: Sys, raw: RawToken, t: RefreshTimes, u: RefreshTimes, next: Jti)
    requires Judge(s, raw, t).Fit? && Sha256(next) !in s.store.tokens
    ensures !Judge(ServeRefresh(cfg, s, raw, t, next, None).0, raw, u).Fit?
  {
    assert Sha256(raw.claims.jti.value) != Sha256(next);
  }

  // ---- undisturbed, it is the atomic refresh -------------------------------------------------------

  /** The moves of one accepted refresh. */
  function Alone(cfg: Config, id: nat, c: Claims, user: UserId, t: RefreshTimes, jti: Jti): seq<Move>
    requires c.jti.Some?
  {
    [Arrive(id, c.jti.value, user, jti), Look(id, t.check),
     Write(id, t.revoke, t.cleanup, NewRow(cfg, user, t.issue)), Commit(id)]
  }

  /** A refresh no other request interleaves with commits exactly the rows the atomic refresh commits. */
  lemma AloneIsAtomic(cfg: Config, s: Sys, n: Net, id: nat, raw: RawToken, t: RefreshTimes, jti: Jti)
    requires cfg.cleanup && n.tokens == s.store.tokens && id !in n.flights
    requires Judge(s, raw, t).Fit? && raw.claims.jti.value in n.drawn && jti !in n.drawn
    requires Sha256(jti) !in n.tokens
    ensures var run := Alone(cfg, id, raw.claims, Judge(s, raw, t).user, t, jti);
            && Legal(n, run, false)
            && Run(n, run, false).tokens == ServeRefresh(cfg, s, raw, t, jti, None).0.store.tokens
            && Run(n, run, false).exchanges == n.exchanges + multiset{raw.claims.jti.value}
  {
    var run := Alone(cfg, id, raw.claims, Judge(s, raw, t).user, t, jti);
    FourMoves(n, run[0], run[1], run[2], run[3], false);
    SweepOrders(cfg, n.tokens, Sha256(raw.claims.jti.value), t);
  }

  /** Deleting what is expired and revoking commute. */
  lemma SweepOrders(cfg: Config, tokens: map<JtiHash, Row>, h: JtiHash, t: RefreshTimes)
    requires cfg.cleanup && h in tokens
    ensures Swept(cfg, Revoked(tokens, h, t.revoke), t.cleanup)
            == Revoked(tokens, h, t.revoke) - Expired(tokens, t.cleanup)
  {
  }

  // ---- serialised, it is atomic requests in commit order -------------------------------------------

  ghost predicate Accepts(all: map<JtiHash, Row>, f: Flight)
    requires f.phase.Written?
  {
    var h := Sha256(f.presented);
    h in all && all[h].revokedAt.None? && f.phase.check <= all[h].expiresAt
  }

  /** The rows after serving a whole request at once where cleanup deletes nothing. */
  ghost function Served(all: map<JtiHash, Row>, f: Flight): map<JtiHash, Row>
    requires f.phase.Written?
  {
    if Accepts(all, f) then Revoked(all, Sha256(f.presented), f.phase.revokedAt)[Sha256(f.next) := f.phase.row] else all
  }

  /** That is the atomic refresh. */
  lemma ServedIsAtomic(cfg: Config, s: Sys, raw: RawToken, t: RefreshTimes, jti: Jti, swept: set<JtiHash>)
    requires !cfg.cleanup && Judge(s, raw, t).Fit? && Sha256(jti) !in s.store.tokens
    ensures var user := Judge(s, raw, t).user;
            var f := Flight(raw.claims.jti.value, user, jti,
                            Written(t.check, t.revoke, swept, NewRow(cfg, user, t.issue)));
            Accepts(s.store.tokens, f)
                && ServeRefresh(cfg, s, raw, t, jti, None).0.store.tokens == Served(s.store.tokens, f)
  {
  }

  /** One request served where it commits; logins and deletions where they happen. */
  ghost function Replayed(n: Net, all: map<JtiHash, Row>, m: Move): map<JtiHash, Row>
    requires Enabled(n, m, true)
  {
    match m
    case Commit(id) => Served(all, n.flights[id])
    case LoggedIn(jti, row) => all[Sha256(jti) := row]
    case Remove(h) => all - {h}
    case _ => all
  }

  ghost function Replay(n: Net, all: map<JtiHash, Row>, run: seq<Move>): map<JtiHash, Row>
    requires Legal(n, run, true)
    decreases |run|
  {
    if run == [] then all else Replay(Step(n, run[0], true), Replayed(n, all, run[0]), run[1..])
  }

  /** Every request that commits is accepted where it is replayed. */
  ghost predicate AllAccepted(n: Net, all: map<JtiHash, Row>, run: seq<Move>)
    requires Legal(n, run, true)
    decreases |run|
  {
    run == [] ||
    ((run[0].Commit? ==> Accepts(all, n.flights[run[0].id]))
     && AllAccepted(Step(n, run[0], true), Replayed(n, all, run[0]), run[1..]))
  }

  /** No cleanup reads the clock after `latest`, and nobody deletes a row that an uncommitted transaction has
      updated, which every database sees to. */
  ghost predicate Guarded(n: Net, m: Move, latest: Instant) {
    && (m.Write? ==> m.cleanup <= latest)
    && (m.Remove? ==> forall k :: k in n.flights && n.flights[k].phase.Written? ==>
        Sha256(n.flights[k].presented) != m.hash)
  }

  ghost predicate AllGuarded(n: Net, run: seq<Move>, latest: Instant)
    requires Legal(n, run, true)
    decreases |run|
  {
    run == [] || (Guarded(n, run[0], latest) && AllGuarded(Step(n, run[0], true), run[1..], latest))
  }

  /** What a flight past its lookup relies on. */
  ghost predicate Relies(all: map<JtiHash, Row>, f: Flight)
    requires Past(f)
  {
    var h := Sha256(f.presented);
    && (h in all ==> all[h].revokedAt.None? && f.phase.check <= all[h].expiresAt)
    && (f.phase.Written? ==> h in all)
  }

  ghost predicate SweepsExpired(n: Net, all: map<JtiHash, Row>, f: Flight, latest: Instant)
    requires f.phase.Written?
  {
    forall x :: x in f.phase.swept ==>
      && x.jti in n.drawn && (x in all ==> all[x].expiresAt < latest)
      && forall k :: k in n.flights ==> x.jti != n.flights[k].next
  }

  ghost predicate Mirrors(n: Net, all: map<JtiHash, Row>, latest: Instant) {
    && Cleanup.Thinned(n.tokens, all, latest)
    && (forall h :: h in all ==> h.jti in n.drawn)
    && (forall k :: k in n.flights ==> Sha256(n.flights[k].next) !in all)
    && (forall k :: k in n.flights && Past(n.flights[k]) ==> Relies(all, n.flights[k]))
    && (forall k :: k in n.flights && n.flights[k].phase.Written? ==> SweepsExpired(n, all, n.flights[k], latest))
  }

  lemma CommitRelies(n: Net, all: map<JtiHash, Row>, id: nat, k: nat)
    requires Apart(n) && Pending(n) && id in n.flights && k in n.flights && k != id
    requires n.flights[id].phase.Written? && Accepts(all, n.flights[id])
    requires Past(n.flights[k]) && Relies(all, n.flights[k])
    ensures Relies(Served(all, n.flights[id]), n.flights[k])
  {
    assert n.flights[k].presented != n.flights[id].presented && n.flights[k].presented != n.flights[id].next;
  }

  lemma CommitMirrors(n: Net, all: map<JtiHash, Row>, m: Move, latest: Instant)
    requires Inv(n) && Mirrors(n, all, latest) && Enabled(n, m, true) && m.Commit?
    ensures Accepts(all, n.flights[m.id]) && Mirrors(Step(n, m, true), Replayed(n, all, m), latest)
  {
    var n', all', f := Step(n, m, true), Replayed(n, all, m), n.flights[m.id];
    assert Relies(all, f) && SweepsExpired(n, all, f, latest);
    CommitThins(n.tokens, all, f, latest);
    forall k | k in n'.flights && Past(n'.flights[k])
      ensures Relies(all', n'.flights[k])
    {
      CommitRelies(n, all, m.id, k);
    }
    forall k | k in n'.flights && n'.flights[k].phase.Written?
      ensures SweepsExpired(n', all', n'.flights[k], latest)
    {
      assert SweepsExpired(n, all, n.flights[k], latest);
    }
  }

  lemma CommitThins(tokens: map<JtiHash, Row>, all: map<JtiHash, Row>, f: Flight, latest: Instant)
    requires f.phase.Written? && Cleanup.Thinned(tokens, all, latest) && Accepts(all, f)
    requires forall x :: x in f.phase.swept && x in all ==> all[x].expiresAt < latest
    ensures Cleanup.Thinned(Applied(tokens, f), Served(all, f), latest)
  {
  }

  lemma WriteMirrors(n: Net, all: map<JtiHash, Row>, m: Move, latest: Instant)
    requires Inv(n) && Mirrors(n, all, latest) && Enabled(n, m, true) && m.Write? && m.cleanup <= latest
    ensures Mirrors(Step(n, m, true), all, latest)
  {
    var n' := Step(n, m, true);
    forall k | k in n'.flights && Past(n'.flights[k])
      ensures Relies(all, n'.flights[k])
    {
      assert Relies(all, n.flights[k]);
    }
    forall k | k in n'.flights && n'.flights[k].phase.Written?
      ensures SweepsExpired(n', all, n'.flights[k], latest)
    {
      if k != m.id {
        assert SweepsExpired(n, all, n.flights[k], latest);
      }
    }
  }

  lemma LookMirrors(n: Net, all: map<JtiHash, Row>, m: Move, latest: Instant)
    requires Inv(n) && Mirrors(n, all, latest) && Enabled(n, m, true) && (m.Look? || m.Abort?)
    ensures Mirrors(Step(n, m, true), all, latest)
  {
    var n' := Step(n, m, true);
    forall k | k in n'.flights && Past(n'.flights[k])
      ensures Relies(all, n'.flights[k])
    {
      assert Past(n.flights[k]) ==> Relies(all, n.flights[k]);
    }
    forall k | k in n'.flights && n'.flights[k].phase.Written?
      ensures SweepsExpired(n', all, n'.flights[k], latest)
    {
      assert SweepsExpired(n, all, n.flights[k], latest);
    }
  }

  lemma ArriveMirrors(n: Net, all: map<JtiHash, Row>, m: Move, latest: Instant)
    requires Inv(n) && Mirrors(n, all, latest) && Enabled(n, m, true) && m.Arrive?
    ensures Mirrors(Step(n, m, true), all, latest)
  {
    var n' := Step(n, m, true);
    forall k | k in n'.flights && Past(n'.flights[k])
      ensures Relies(all, n'.flights[k])
    {
      assert Relies(all, n.flights[k]);
    }
    forall k | k in n'.flights && n'.flights[k].phase.Written?
      ensures SweepsExpired(n', all, n'.flights[k], latest)
    {
      assert SweepsExpired(n, all, n.flights[k], latest);
    }
  }

  lemma RowsMirror(n: Net, all: map<JtiHash, Row>, m: Move, latest: Instant)
    requires Inv(n) && Mirrors(n, all, latest) && Enabled(n, m, true) && (m.LoggedIn? || m.Remove?)
    requires Guarded(n, m, latest)
    ensures Mirrors(Step(n, m, true), Replayed(n, all, m), latest)
  {
    var n', all' := Step(n, m, true), Replayed(n, all, m);
    forall k | k in n'.flights && Past(n'.flights[k])
      ensures Relies(all', n'.flights[k])
    {
      assert Relies(all, n.flights[k]) && n.flights[k].presented in n.drawn;
    }
    forall k | k in n'.flights && n'.flights[k].phase.Written?
      ensures SweepsExpired(n', all', n'.flights[k], latest)
    {
      assert SweepsExpired(n, all, n.flights[k], latest);
    }
  }

  lemma StepMirrors(n: Net, all: map<JtiHash, Row>, m: Move, latest: Instant)
    requires Inv(n) && Mirrors(n, all, latest) && Enabled(n, m, true) && Guarded(n, m, latest)
    ensures m.Commit? ==> Accepts(all, n.flights[m.id])
    ensures Mirrors(Step(n, m, true), Replayed(n, all, m), latest)
  {
    match m
    case Arrive(_, _, _, _) => ArriveMirrors(n, all, m, latest);
    case Write(_, _, _, _) => WriteMirrors(n, all, m, latest);
    case Commit(_) => CommitMirrors(n, all, m, latest);
    case LoggedIn(_, _) => RowsMirror(n, all, m, latest);
    case Remove(_) => RowsMirror(n, all, m, latest);
    case _ => LookMirrors(n, all, m, latest);
  }

  lemma {:induction false} RunMirrors(n: Net, all: map<JtiHash, Row>, run: seq<Move>, latest: Instant)
    requires Inv(n) && Mirrors(n, all, latest) && Legal(n, run, true) && AllGuarded(n, run, latest)
    ensures AllAccepted(n, all, run) && Mirrors(Run(n, run, true), Replay(n, all, run), latest)
    decreases |run|
  {
    if run != [] {
      StepMirrors(n, all, run[0], latest);
      StepKeeps(n, run[0]);
      RunMirrors(Step(n, run[0], true), Replayed(n, all, run[0]), run[1..], latest);
    }
  }

  /** However serialised refreshes interleave, the committed rows are those of the same requests served one at a
      time, whole, in the order they commit, each of them accepted there; only rows that have expired by the
      latest cleanup may be missing. */
  lemma SerialisedIsAtomic(n: Net, run: seq<Move>, latest: Instant)
    requires n.flights == map[] && n.exchanges == multiset{} && Drawn(n)
    requires Legal(n, run, true) && AllGuarded(n, run, latest)
    ensures AllAccepted(n, n.tokens, run)
    ensures Cleanup.Thinned(Run(n, run, true).tokens, Replay(n, n.tokens, run), latest)
  {
    RunMirrors(n, n.tokens, run, latest);
  }
}
