/** A refresh token is exchanged at most once, and an exchange is committed whole or not at all. */
module SingleUse {
  import opened Types
  import opened Jwt
  import opened Requests
  import opened Machine
  import opened Invariants
  import opened Acceptance

  /** A drawn identifier with no acceptable row: revoked, deleted, or never committed. */
  ghost predicate Spent(w: World, j: Jti) {
    && j in w.hist.drawn
    && (Sha256(j) in w.sys.store.tokens ==> w.sys.store.tokens[Sha256(j)].revokedAt.Some?)
  }

  ghost predicate Exchanging(cfg: Config, w: World, l: Label, j: Jti)
    requires Enabled(w, l)
  {
    l.RefreshCall? && l.raw.Encoded? && l.raw.claims.jti == Some(j) && Respond(cfg, w.sys, l).1.Ok?
  }

  lemma SpentStaysSpent(cfg: Config, w: World, l: Label, j: Jti)
    requires Inv(cfg, w) && Enabled(w, l) && Spent(w, j)
    ensures Spent(Next(cfg, w, l), j) && !Exchanging(cfg, w, l, j)
  {
    StepRows(cfg, w, l);
    if Exchanging(cfg, w, l, j) {
      ExchangeFacts(cfg, w, l);
    }
  }

  lemma ExchangeSpends(cfg: Config, w: World, l: Label, j: Jti)
    requires Inv(cfg, w) && Enabled(w, l) && Exchanging(cfg, w, l, j)
    ensures !Spent(w, j) && Spent(Next(cfg, w, l), j)
  {
    ExchangeFacts(cfg, w, l);
    RefreshHandsOut(cfg, w, l);
  }

  /** In every run a token is exchanged at most once, and never once its row is revoked or gone. */
  lemma {:induction false} ExchangedAtMostOnce(cfg: Config, w: World, run: seq<Label>, j: Jti)
    requires Inv(cfg, w) && Legal(cfg, w, run)
    ensures Exchanges(cfg, w, run, j) <= 1
    ensures Spent(w, j) ==> Exchanges(cfg, w, run, j) == 0 && Spent(Run(cfg, w, run), j)
    ensures Exchanges(cfg, w, run, j) == 1 ==> Spent(Run(cfg, w, run), j)
    decreases |run|
  {
    if run != [] {
      var w' := Next(cfg, w, run[0]);
      NextKeeps(cfg, w, run[0]);
      if Exchanging(cfg, w, run[0], j) {
        ExchangeSpends(cfg, w, run[0], j);
      }
      if Spent(w, j) {
        SpentStaysSpent(cfg, w, run[0], j);
      }
      ExchangedAtMostOnce(cfg, w', run[1..], j);
    }
  }

  // ---- atomicity -----------------------------------------------------------------------------------

  /** A rotation that succeeds commits both halves, at once. */
  lemma RotationIsWhole(cfg: Config, w: World, l: Label)
    requires Inv(cfg, w) && Enabled(w, l) && l.RefreshCall? && Respond(cfg, w.sys, l).1.Ok?
    ensures l.raw.Encoded? && l.raw.claims.jti.Some? && l.raw.claims.sub.Some?
    ensures Spent(Next(cfg, w, l), l.raw.claims.jti.value)
    ensures var tokens := Next(cfg, w, l).sys.store.tokens;
            && Sha256(l.jti) in tokens
            && tokens[Sha256(l.jti)]
               == Row(l.raw.claims.sub.value, l.at.issue.row + cfg.refreshDays * 24 * 60 * 60 * 1_000_000, None)
  {
    var user := Judge(w.sys, l.raw, l.at).user;
    RefreshHandsOut(cfg, w, l);
    HandoutMoves(cfg, w, Next(cfg, w, l), user, l.at.issue, l.jti, l.raw.claims.jti, RowsBeforeInsert(cfg, w, l));
    ExchangeFacts(cfg, w, l);
    ExchangeSpends(cfg, w, l, l.raw.claims.jti.value);
  }

  lemma FaultStopsRefresh(cfg: Config, s: Sys, l: Label)
    requires l.RefreshCall? && Fails(l.fault, 6)
    ensures !Respond(cfg, s, l).1.Ok?
  {
  }

  /** Whichever of its six database calls raises, and also when the new `jti_hash` clashes, a refresh
      commits nothing; otherwise it commits both the spent row and its successor. */
  lemma RotationIsAtomic(cfg: Config, w: World, l: Label)
    requires Inv(cfg, w) && Enabled(w, l) && l.RefreshCall?
    ensures Fails(l.fault, 6) ==> !Respond(cfg, w.sys, l).1.Ok?
    ensures if Respond(cfg, w.sys, l).1.Ok?
            then l.raw.Encoded? && l.raw.claims.jti.Some?
                 && Spent(Next(cfg, w, l), l.raw.claims.jti.value) && !Spent(Next(cfg, w, l), l.jti)
            else Next(cfg, w, l).sys.store == w.sys.store
  {
    if Respond(cfg, w.sys, l).1.Ok? {
      RotationIsWhole(cfg, w, l);
    } else {
      FailureCommitsNothing(cfg, w.sys, l);
    }
    if Fails(l.fault, 6) {
      FaultStopsRefresh(cfg, w.sys, l);
    }
  }

  /** The insert of a clashing `jti_hash` is one of those failures, for any state at all. */
  lemma ClashCommitsNothing(cfg: Config, s: Sys, l: Label)
    requires l.RefreshCall?
    requires Sha256(l.jti) in s.store.tokens && l.at.cleanup <= s.store.tokens[Sha256(l.jti)].expiresAt
    ensures !Respond(cfg, s, l).1.Ok? && Respond(cfg, s, l).0.store == s.store
  {
  }

  /** No reachable committed store holds a spent row without the successor it was exchanged for, unless
      the successor has itself expired or been removed by an administrator. */
  lemma SpentRowHasSuccessor(cfg: Config, w: World, h: JtiHash)
    requires Inv(cfg, w) && h in w.sys.store.tokens && w.sys.store.tokens[h].revokedAt.Some?
    ensures h.jti in w.hist.successor
    ensures var n := w.hist.successor[h.jti];
            && n in w.hist.grants && w.hist.grants[n].parent == Some(h.jti)
            && w.hist.grants[n].claims.sub == Some(w.sys.store.tokens[h].userId)
            && (Sha256(n) in w.sys.store.tokens || n in w.hist.dropped || w.hist.grants[n].rowExpiry < w.now)
  {
    var n := w.hist.successor[h.jti];
    assert w.hist.grants[n].parent == Some(h.jti);
  }
}
