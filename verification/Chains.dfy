/** The tokens handed out form simple chains, one per login, each with one unexchanged tip. */
module Chains {
  import opened Types
  import opened Requests
  import opened Machine
  import opened Invariants

  /** Serial numbers stay below the number of grants and links go both ways. */
  ghost predicate Chained(h: History) {
    Linked(h) && forall j :: j in h.grants ==> h.grants[j].serial < |h.grants|
  }

  lemma InvChained(cfg: Config, w: World)
    requires Inv(cfg, w)
    ensures Chained(w.hist)
  {
  }

  /** The login a token goes back to. */
  ghost function Root(h: History, j: Jti): Jti
    requires Chained(h) && j in h.grants
    decreases h.grants[j].serial
  {
    if h.grants[j].parent.None? then j else Root(h, h.grants[j].parent.value)
  }

  /** The token it has by now been exchanged for. */
  ghost function Tip(h: History, j: Jti): Jti
    requires Chained(h) && j in h.grants
    decreases |h.grants| - h.grants[j].serial
  {
    if j !in h.successor then j
    else
      var n := h.successor[j];
      assert h.grants[n].parent == Some(j);
      Tip(h, n)
  }

  /** The tokens from a login down to `j`, each exchanged for the next. */
  ghost function Lineage(h: History, j: Jti): seq<Jti>
    requires Chained(h) && j in h.grants
    decreases h.grants[j].serial
  {
    (if h.grants[j].parent.None? then [] else Lineage(h, h.grants[j].parent.value)) + [j]
  }

  /** Every token traces back by finitely many rotations to a login of the same account, along which
      row expiry never decreases. */
  lemma {:induction false} TracesToLogin(h: History, j: Jti)
    requires Chained(h) && j in h.grants
    ensures var path := Lineage(h, j);
            && path[0] == Root(h, j) && path[0] in h.grants && h.grants[path[0]].parent.None? && path[|path| - 1] == j
            && (forall i :: 0 <= i < |path| ==>
                 && path[i] in h.grants && h.grants[path[i]].claims.sub == h.grants[j].claims.sub
                 && Root(h, path[i]) == Root(h, j))
            && (forall i :: 0 <= i < |path| - 1 ==>
                 && path[i] in h.successor && h.successor[path[i]] == path[i + 1]
                 && h.grants[path[i]].rowExpiry <= h.grants[path[i + 1]].rowExpiry)
    decreases h.grants[j].serial
  {
    if h.grants[j].parent.Some? {
      TracesToLogin(h, h.grants[j].parent.value);
    }
  }

  lemma {:induction false} TipFacts(h: History, j: Jti)
    requires Chained(h) && j in h.grants
    ensures Tip(h, j) in h.grants && Tip(h, j) !in h.successor && Root(h, Tip(h, j)) == Root(h, j)
    decreases |h.grants| - h.grants[j].serial
  {
    if j in h.successor {
      assert h.grants[h.successor[j]].parent == Some(j);
      TipFacts(h, h.successor[j]);
    }
  }

  lemma {:induction false} TipOfRoot(h: History, j: Jti)
    requires Chained(h) && j in h.grants
    ensures Root(h, j) in h.grants && h.grants[Root(h, j)].parent.None? && Tip(h, Root(h, j)) == Tip(h, j)
    decreases h.grants[j].serial
  {
    if h.grants[j].parent.Some? {
      TipOfRoot(h, h.grants[j].parent.value);
    }
  }

  /** Each chain has exactly one unexchanged token. */
  lemma OneTipPerChain(h: History, r: Jti)
    requires Chained(h) && r in Roots(h)
    ensures Tip(h, r) in h.grants && Tip(h, r) !in h.successor && Root(h, Tip(h, r)) == r
    ensures forall j :: j in h.grants && j !in h.successor && Root(h, j) == r ==> j == Tip(h, r)
  {
    TipFacts(h, r);
    forall j | j in h.grants && j !in h.successor && Root(h, j) == r
      ensures j == Tip(h, r)
    {
      TipOfRoot(h, j);
    }
  }

  /** No token is rotated into two, nor two into one. */
  lemma ChainsAreSimple(h: History, j: Jti, k: Jti)
    requires Chained(h) && j in h.successor && k in h.successor && h.successor[j] == h.successor[k]
    ensures j == k
  {
    assert h.grants[h.successor[j]].parent == Some(j);
  }

  function Unexchanged(h: History): set<Jti> {
    set j | j in h.grants && j !in h.successor
  }

  /** Chains are as many as successful logins, and so are the unexchanged tokens. */
  lemma TipsAreLogins(h: History)
    requires Chained(h) && Bookkept(h)
    ensures |Unexchanged(h)| == |Roots(h)| == h.logins
  {
    forall r, s | r in Roots(h) && s in Roots(h) && Tip(h, r) == Tip(h, s)
      ensures r == s
    {
      OneTipPerChain(h, r);
      OneTipPerChain(h, s);
    }
    var tips := map r | r in Roots(h) :: Tip(h, r);
    forall j
      ensures j in tips.Values <==> j in Unexchanged(h)
    {
      if j in Unexchanged(h) {
        TipOfRoot(h, j);
        OneTipPerChain(h, Root(h, j));
        assert Root(h, j) in tips && tips[Root(h, j)] == j;
      }
      if j in tips.Values {
        var r :| r in tips && tips[r] == j;
        TipFacts(h, r);
      }
    }
    assert tips.Values == Unexchanged(h) && tips.Keys == Roots(h);
    SameSize(tips);
  }

  lemma {:induction false} SameSize(m: map<Jti, Jti>)
    requires forall r, s :: r in m && s in m && m[r] == m[s] ==> r == s
    ensures |m.Values| == |m.Keys|
    decreases |m|
  {
    if m.Keys == {} {
      assert m.Values == {};
    } else {
      var r :| r in m.Keys;
      var rest := m - {r};
      ValuesWithout(m, r);
      assert m[r] !in rest.Values;
      assert m.Keys == rest.Keys + {r};
      SameSize(rest);
    }
  }

  lemma ValuesWithout(m: map<Jti, Jti>, r: Jti)
    requires r in m
    ensures m.Values == (m - {r}).Values + {m[r]}
  {
    var rest := m - {r};
    forall x | x in m.Values
      ensures x in rest.Values + {m[r]}
    {
      var k :| k in m && m[k] == x;
      assert k != r ==> k in rest && rest[k] == x;
    }
    assert forall k :: k in rest ==> k in m && m[k] == rest[k];
  }

  lemma RootFacts(h: History, j: Jti)
    requires Chained(h) && j in h.grants && j !in h.successor
    ensures Root(h, j) in Roots(h) && Tip(h, Root(h, j)) == j
    ensures h.grants[Root(h, j)].claims.sub == h.grants[j].claims.sub
  {
    TracesToLogin(h, j);
    TipOfRoot(h, j);
    assert Lineage(h, j)[0] == Root(h, j);
  }

  lemma PairNamesUser(cfg: Config, s: Sys, l: Label)
    requires l.RefreshCall? && Respond(cfg, s, l).1.Ok?
    ensures Judge(s, l.raw, l.at).Fit? && Respond(cfg, s, l).1.value.Tokens?
    ensures Respond(cfg, s, l).1.value.pair == NewPair(cfg, Judge(s, l.raw, l.at).user, l.at.issue, l.jti)
  {
  }

  lemma RowNamesOwner(cfg: Config, w: World, h: JtiHash)
    requires Inv(cfg, w) && h in w.sys.store.tokens
    ensures h.jti in w.hist.grants && w.hist.grants[h.jti].claims.sub == Some(w.sys.store.tokens[h].userId)
  {
  }

  /** In every reachable state: the new pair of an accepted refresh names the account of the password
      login at the head of the chain, whose unexchanged tip is the token presented; and the `user_id`
      of its row, which the code never reads, is that account. */
  lemma OwnerIsWhoLoggedIn(cfg: Config, w: World, l: Label)
    requires Inv(cfg, w) && Enabled(w, l) && l.RefreshCall? && Respond(cfg, w.sys, l).1.Ok?
    ensures Chained(w.hist) && l.raw.Encoded? && l.raw.claims.jti.Some? && l.raw.claims.jti.value in w.hist.grants
    ensures Respond(cfg, w.sys, l).1.value.Tokens?
    ensures var h, j := w.hist, l.raw.claims.jti.value;
            var pair := Respond(cfg, w.sys, l).1.value.pair;
            && Root(h, j) in Roots(h) && Tip(h, Root(h, j)) == j
            && var owner := h.grants[Root(h, j)].claims.sub;
               && Sha256(j) in w.sys.store.tokens && owner == Some(w.sys.store.tokens[Sha256(j)].userId)
               && pair.refresh.Encoded? && pair.refresh.claims.sub == owner
               && pair.access.Encoded? && pair.access.claims.sub == owner
  {
    var j := l.raw.claims.jti.value;
    InvChained(cfg, w);
    ExchangeFacts(cfg, w, l);
    PairNamesUser(cfg, w.sys, l);
    RowNamesOwner(cfg, w, Sha256(j));
    RootFacts(w.hist, j);
  }
}
