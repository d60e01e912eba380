/** Token issuing and decoding (`app/security/jwt.py`). Signatures are unforgeable: what decodes was signed here. */
module Jwt {
  import opened Types

  const SECOND: int := 1_000_000

  /** The library stores `iat` and `exp` in whole seconds, dropping the fraction. */
  function WholeSeconds(t: Instant): (r: Instant)
    ensures r <= t < r + SECOND
    ensures r % SECOND == 0
  {
    t - t % SECOND
  }

  function DefaultExpiry(cfg: Config, kind: Kind): int {
    if kind.Refresh? then cfg.RefreshLifetime() else cfg.AccessLifetime()
  }

  /** A zero `expires_delta` is falsy and falls back to the default. */
  function NewClaims(cfg: Config, sub: UserId, kind: Kind, delta: Option<int>, jti: Option<Jti>, now: Instant): Claims {
    var lifetime := if delta.Some? && delta.value != 0 then delta.value else DefaultExpiry(cfg, kind);
    Claims(Some(sub), kind, WholeSeconds(now), WholeSeconds(now + lifetime), jti)
  }

  function AccessClaims(cfg: Config, sub: UserId, now: Instant): Claims {
    NewClaims(cfg, sub, Access, None, None, now)
  }

  function RefreshClaims(cfg: Config, sub: UserId, jti: Jti, now: Instant): Claims {
    NewClaims(cfg, sub, Refresh, Some(cfg.RefreshLifetime()), Some(jti), now)
  }

  /** What is claimed: the account, the type and the identifier given, and in whole seconds the instant and that
      plus the lifetime given, or the configured minutes of an access token or days of a refresh token. */
  lemma ClaimsAreExact(cfg: Config, sub: UserId, kind: Kind, delta: Option<int>, jti: Option<Jti>, now: Instant)
    ensures var c := NewClaims(cfg, sub, kind, delta, jti, now);
            var lifetime := if delta.Some? && delta.value != 0 then delta.value
                            else if kind == Access then cfg.accessMinutes * 60 * 1_000_000
                            else cfg.refreshDays * 24 * 60 * 60 * 1_000_000;
            && c.sub == Some(sub) && c.kind == kind && c.jti == jti
            && c.iat % 1_000_000 == 0 && c.iat <= now < c.iat + 1_000_000
            && c.exp % 1_000_000 == 0 && c.exp <= now + lifetime < c.exp + 1_000_000
  {
  }

  /** Decoding succeeds on claims the service signed whose `exp` is strictly after now. */
  function Decode(signed: set<Claims>, raw: RawToken, now: Instant): Option<Claims> {
    if raw.Encoded? && raw.claims in signed && now < raw.claims.exp then Some(raw.claims) else None
  }

  /** The signing key, known by the set of claims signed with it. */
  class Signer {
    var signed: set<Claims>

    constructor ()
      ensures signed == {}
    {
      signed := {};
    }

    method CreateToken(cfg: Config, sub: UserId, kind: Kind, delta: Option<int>, jti: Option<Jti>, now: Instant)
      returns (token: RawToken)
      modifies this
      ensures token == Encoded(NewClaims(cfg, sub, kind, delta, jti, now))
      ensures signed == old(signed) + {NewClaims(cfg, sub, kind, delta, jti, now)}
    {
      var lifetime := DefaultExpiry(cfg, kind);
      if delta.Some? && delta.value != 0 {
        lifetime := delta.value;
      }
      var claims := Claims(Some(sub), kind, WholeSeconds(now), WholeSeconds(now + lifetime), None);
      if jti.Some? {
        claims := claims.(jti := jti);
      }
      signed := signed + {claims};
      token := Encoded(claims);
    }

    method DecodeToken(raw: RawToken, now: Instant) returns (claims: Option<Claims>)
      ensures claims == Decode(signed, raw, now)
    {
      if raw.Encoded? && raw.claims in signed && now < raw.claims.exp {
        return Some(raw.claims);
      }
      return None;
    }
  }
}
