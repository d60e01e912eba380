/** Bucket naming and layered limits (`app/infrastructure/ratelimit.py`, `app/api.py`) over any limiter that
    decides each hit from what it has recorded for that bucket. */
module RateLimits {
  import opened Types

  const SECOND: int := 1_000_000

  /** A parsed `"10/minute"`. */
  datatype Rate = Rate(amount: nat, period: nat)

  /** The arguments of `rate_limit`. */
  datatype Limit = Limit(rate: Rate, prefix: string, perPath: bool)

  /** The URL path, and the caller's name as the scope function gives it. */
  datatype Request = Request(path: string, client: string)

  /** `build_key`. */
  function BuildKey(limit: Limit, request: Request): string {
    if limit.perPath then limit.prefix + ":" + request.path + ":" + request.client
    else limit.prefix + ":" + request.client
  }

  /** What the limiter counts under: the rate and the key given to `hit`. */
  datatype Bucket = Bucket(rate: Rate, key: string)

  function BucketOf(limit: Limit, request: Request): Bucket {
    Bucket(limit.rate, BuildKey(limit, request))
  }

  datatype Attempt = Attempt(at: Instant, allowed: bool)

  type Records = map<Bucket, seq<Attempt>>

  function Own(records: Records, bucket: Bucket): seq<Attempt> {
    if bucket in records then records[bucket] else []
  }

  /** A strategy of the `limits` library, as functions of the rate, the bucket's record and the clock. */
  datatype Strategy = Strategy(
    admits: (Rate, seq<Attempt>, Instant) -> bool,
    reset: (Rate, seq<Attempt>, Instant) -> Instant,
    remaining: (Rate, seq<Attempt>, Instant) -> int)

  /** The clock readings of one dependency: in `hit`, in `get_window_stats`, and its own. */
  datatype Reading = Reading(hit: Instant, stats: Instant, now: Instant)

  /** `request.state.rate_limit`, which becomes the `X-RateLimit-*` headers. */
  datatype Meta = Meta(limit: nat, remaining: int, reset: int)

  /** Where a request stands: what is recorded, its state, the dependencies that let it through, and the
      `retry_after` of the one that did not. */
  datatype Passage = Passage(records: Records, meta: Option<Meta>, passed: nat, retryAfter: Option<int>)

  function Recorded(strategy: Strategy, records: Records, bucket: Bucket, now: Instant): Records {
    records[bucket := Own(records, bucket) + [Attempt(now, strategy.admits(bucket.rate, Own(records, bucket), now))]]
  }

  /** The wait in whole seconds, at least one; below one second both truncation and flooring give one. */
  function RetryAfter(reset: Instant, now: Instant): (r: int)
    ensures reset - now >= 1_000_000 ==> r * 1_000_000 <= reset - now < (r + 1) * 1_000_000
    ensures reset - now < 1_000_000 ==> r == 1
  {
    var wait := (reset - now) / SECOND;
    if wait < 1 then 1 else wait
  }

  /** What `dependency` leaves on the request's state. */
  function MetaOf(strategy: Strategy, records: Records, bucket: Bucket, stats: Instant): (m: Meta)
    ensures m.limit == bucket.rate.amount
  {
    var own := Own(records, bucket);
    Meta(bucket.rate.amount, strategy.remaining(bucket.rate, own, stats),
         strategy.reset(bucket.rate, own, stats) / SECOND)
  }

  function WaitOf(strategy: Strategy, records: Records, bucket: Bucket, r: Reading): int {
    RetryAfter(strategy.reset(bucket.rate, Own(records, bucket), r.stats), r.now)
  }

  /** `dependency`. */
  function Enforce(strategy: Strategy, p: Passage, limit: Limit, request: Request, r: Reading): Passage {
    var bucket := BucketOf(limit, request);
    var records := Recorded(strategy, p.records, bucket, r.hit);
    if strategy.admits(limit.rate, Own(p.records, bucket), r.hit)
    then Passage(records, Some(MetaOf(strategy, records, bucket, r.stats)), p.passed + 1, None)
    else Passage(records, p.meta, p.passed, Some(WaitOf(strategy, records, bucket, r)))
  }

  /** The storage shared by every limit. */
  class Storage {
    const strategy: Strategy
    var records: Records

    constructor (strategy: Strategy)
      ensures this.strategy == strategy && records == map[]
    {
      this.strategy := strategy;
      records := map[];
    }

    method Hit(rate: Rate, key: string, now: Instant) returns (allowed: bool)
      modifies this
      ensures allowed == strategy.admits(rate, Own(old(records), Bucket(rate, key)), now)
      ensures Own(records, Bucket(rate, key)) == Own(old(records), Bucket(rate, key)) + [Attempt(now, allowed)]
      ensures forall b :: b != Bucket(rate, key) ==> Own(records, b) == Own(old(records), b)
      ensures records == Recorded(strategy, old(records), Bucket(rate, key), now)
    {
      var bucket := Bucket(rate, key);
      allowed := strategy.admits(rate, Own(records, bucket), now);
      records := records[bucket := Own(records, bucket) + [Attempt(now, allowed)]];
    }

    method GetWindowStats(rate: Rate, key: string, now: Instant) returns (reset: Instant, remaining: int)
      ensures reset == strategy.reset(rate, Own(records, Bucket(rate, key)), now)
      ensures remaining == strategy.remaining(rate, Own(records, Bucket(rate, key)), now)
    {
      reset := strategy.reset(rate, Own(records, Bucket(rate, key)), now);
      remaining := strategy.remaining(rate, Own(records, Bucket(rate, key)), now);
    }
  }

  class RequestState {
    var rateLimit: Option<Meta>

    constructor ()
      ensures rateLimit == None
    {
      rateLimit := None;
    }
  }

  /** The dependency `rate_limit` returns; Some is a `RateLimitedError`. */
  method Dependency(limit: Limit, storage: Storage, request: Request, state: RequestState, r: Reading)
    returns (retryAfter: Option<int>)
    modifies storage, state
    ensures var after := Enforce(storage.strategy, Passage(old(storage.records), old(state.rateLimit), 0, None),
                                 limit, request, r);
            storage.records == after.records && state.rateLimit == after.meta && retryAfter == after.retryAfter
  {
    var key := BuildKey(limit, request);
    var allowed := storage.Hit(limit.rate, key, r.hit);
    var reset, remaining := storage.GetWindowStats(limit.rate, key, r.stats);
    if !allowed {
      return Some(RetryAfter(reset, r.now));
    }
    state.rateLimit := Some(Meta(limit.rate.amount, remaining, reset / SECOND));
    return None;
  }

  // ---- bucket names --------------------------------------------------------------------------------

  predicate PlainPrefix(limit: Limit) {
    ':' !in limit.prefix
  }

  /** Paths start with a slash and hold no colon; client names do not start with a slash. */
  predicate WellNamed(request: Request) {
    && request.path != "" && request.path[0] == '/' && ':' !in request.path
    && (request.client == "" || request.client[0] != '/')
  }

  lemma CutAtColon(a: string, x: string, b: string, y: string)
    requires ':' !in a && ':' !in b
    requires a + ":" + x == b + ":" + y
    ensures a == b && x == y
  {
    var whole := a + ":" + x;
    assert whole[|a|] == ':' && whole[|b|] == ':';
    assert forall i :: 0 <= i < |a| ==> whole[i] == a[i] != ':';
    assert forall i :: 0 <= i < |b| ==> whole[i] == b[i] != ':';
    assert |a| == |b|;
    assert a == whole[..|a|] && b == whole[..|b|];
    assert x == whole[|a| + 1..] && y == whole[|b| + 1..];
  }

  function KeyTail(limit: Limit, request: Request): string {
    if limit.perPath then request.path + ":" + request.client else request.client
  }

  lemma KeyIsPrefixAndTail(limit: Limit, request: Request)
    ensures BuildKey(limit, request) == limit.prefix + ":" + KeyTail(limit, request)
  {
    if limit.perPath {
      assert limit.prefix + ":" + request.path + ":" + request.client
          == limit.prefix + ":" + (request.path + ":" + request.client);
    }
  }

  /** Two requests share a key exactly when limiter, client and, per path, path agree. */
  lemma SharedExactly(l1: Limit, r1: Request, l2: Limit, r2: Request)
    requires PlainPrefix(l1) && PlainPrefix(l2) && WellNamed(r1) && WellNamed(r2)
    ensures BuildKey(l1, r1) == BuildKey(l2, r2) <==>
            && l1.prefix == l2.prefix && l1.perPath == l2.perPath
            && r1.client == r2.client && (l1.perPath ==> r1.path == r2.path)
  {
    KeyIsPrefixAndTail(l1, r1);
    KeyIsPrefixAndTail(l2, r2);
    assert l1.perPath ==> KeyTail(l1, r1)[0] == '/';
    assert l2.perPath ==> KeyTail(l2, r2)[0] == '/';
    if BuildKey(l1, r1) == BuildKey(l2, r2) {
      CutAtColon(l1.prefix, KeyTail(l1, r1), l2.prefix, KeyTail(l2, r2));
      if l1.perPath && l2.perPath {
        CutAtColon(r1.path, r1.client, r2.path, r2.client);
      }
    }
  }

  /** Each naming condition is needed: a colon in a prefix or in a path, a client name that starts with a slash,
      or a path that does not, each lets different limits or requests share a key. */
  lemma NamesCanCollide(limit: Limit, a: string, b: string, client: string)
    ensures BuildKey(limit.(prefix := a + ":" + b, perPath := false), Request("/", client))
         == BuildKey(limit.(prefix := a, perPath := false), Request("/", b + ":" + client))
    ensures BuildKey(limit.(perPath := true), Request(a + ":" + b, client))
         == BuildKey(limit.(perPath := true), Request(a, b + ":" + client))
    ensures BuildKey(limit.(perPath := true), Request(a, client))
         == BuildKey(limit.(perPath := false), Request(b, a + ":" + client))
  {
    var p := limit.prefix;
    assert a + ":" + b + ":" + client == a + ":" + (b + ":" + client);
    assert p + ":" + (a + ":" + b) + ":" + client == p + ":" + a + ":" + (b + ":" + client);
    assert p + ":" + a + ":" + client == p + ":" + (a + ":" + client);
  }

  // ---- layers --------------------------------------------------------------------------------------

  /** A request with the limits on its way, outermost first, and the readings each of them takes. */
  datatype Call = Call(request: Request, layers: seq<Limit>, times: nat -> Reading) {
    function BucketAt(k: nat): Bucket
      requires k < |layers|
    {
      BucketOf(layers[k], request)
    }

    predicate Plain() {
      WellNamed(request) && forall k :: 0 <= k < |layers| ==> PlainPrefix(layers[k])
    }

    /** No two limits on the way have the same name. */
    predicate Layered() {
      forall j, k :: 0 <= j < k < |layers| ==>
        layers[j].prefix != layers[k].prefix || layers[j].perPath != layers[k].perPath
    }
  }

  /** The dependencies from number k on, until one refuses. */
  function PassFrom(strategy: Strategy, p: Passage, call: Call, k: nat): Passage
    requires k <= |call.layers|
    decreases |call.layers| - k
  {
    if k == |call.layers| then p
    else
      var next := Enforce(strategy, p, call.layers[k], call.request, call.times(k));
      if next.retryAfter.Some? then next else PassFrom(strategy, next, call, k + 1)
  }

  function Pass(strategy: Strategy, records: Records, call: Call): Passage {
    PassFrom(strategy, Passage(records, None, 0, None), call, 0)
  }

  /** What the layers from k on record for their own bucket j. */
  function NewHits(call: Call, passed: nat, j: nat): seq<Attempt> {
    if j < passed then [Attempt(call.times(j).hit, true)]
    else if j == passed then [Attempt(call.times(j).hit, false)]
    else []
  }

  lemma EnforceRecords(strategy: Strategy, p: Passage, limit: Limit, request: Request, r: Reading)
    ensures var next := Enforce(strategy, p, limit, request, r);
            var bucket := BucketOf(limit, request);
            && Own(next.records, bucket) == Own(p.records, bucket) + [Attempt(r.hit, next.retryAfter.None?)]
            && (forall b :: b != bucket ==> Own(next.records, b) == Own(p.records, b))
            && (if next.retryAfter.None? then next.passed == p.passed + 1 && next.meta.Some?
                                              && next.meta.value.limit == limit.rate.amount
                else next.passed == p.passed && next.meta == p.meta)
  {
  }

  lemma EnforceElsewhere(strategy: Strategy, p: Passage, limit: Limit, request: Request, r: Reading, b: Bucket)
    requires BucketOf(limit, request) != b
    ensures var next := Enforce(strategy, p, limit, request, r);
            && Own(next.records, b) == Own(p.records, b)
            && next.passed == if next.retryAfter.None? then p.passed + 1 else p.passed
  {
  }

  lemma EnforceCounts(strategy: Strategy, p: Passage, limit: Limit, request: Request, r: Reading)
    requires p.retryAfter.None?
    ensures var next := Enforce(strategy, p, limit, request, r);
            next.passed == if next.retryAfter.None? then p.passed + 1 else p.passed
  {
  }

  /** A request has passed all its layers exactly when none refused it. */
  ghost predicate Stopped(p: Passage, call: Call) {
    p.passed <= |call.layers| && (p.retryAfter.None? <==> p.passed == |call.layers|)
  }

  lemma {:induction false} PassFromStops(strategy: Strategy, p: Passage, call: Call, k: nat)
    requires k <= |call.layers| && p.passed == k && p.retryAfter.None?
    ensures Stopped(PassFrom(strategy, p, call, k), call)
    decreases |call.layers| - k
  {
    if k < |call.layers| {
      var next := Enforce(strategy, p, call.layers[k], call.request, call.times(k));
      EnforceCounts(strategy, p, call.layers[k], call.request, call.times(k));
      if next.retryAfter.None? {
        PassFromStops(strategy, next, call, k + 1);
        assert PassFrom(strategy, p, call, k) == PassFrom(strategy, next, call, k + 1);
      } else {
        assert PassFrom(strategy, p, call, k) == next;
      }
    }
  }

  /** The headers of layer k: its amount, and what its strategy makes of its bucket's record, the reset in whole
      seconds. */
  function Shown(strategy: Strategy, records: Records, call: Call, k: nat): Meta
    requires k < |call.layers|
  {
    var rate, own := call.layers[k].rate, Own(records, call.BucketAt(k));
    Meta(rate.amount, strategy.remaining(rate, own, call.times(k).stats),
         strategy.reset(rate, own, call.times(k).stats) / 1_000_000)
  }

  /** The wait layer k asks for: the whole seconds until its reset, at least one. */
  function Wait(strategy: Strategy, records: Records, call: Call, k: nat): int
    requires k < |call.layers|
  {
    var rate, own := call.layers[k].rate, Own(records, call.BucketAt(k));
    var whole := (strategy.reset(rate, own, call.times(k).stats) - call.times(k).now) / 1_000_000;
    if whole > 1 then whole else 1
  }

  /** The headers are those of the limit passed last, and the wait is that of the one that refused. */
  ghost predicate Heads(strategy: Strategy, p: Passage, call: Call) {
    && p.passed <= |call.layers|
    && p.meta == (if p.passed == 0 then None else Some(Shown(strategy, p.records, call, p.passed - 1)))
    && (p.retryAfter.Some? ==>
          p.passed < |call.layers| && p.retryAfter.value == Wait(strategy, p.records, call, p.passed))
  }

  lemma EnforceHeads(strategy: Strategy, p: Passage, call: Call, k: nat)
    requires k < |call.layers| && p.passed == k && p.retryAfter.None? && Heads(strategy, p, call)
    requires k > 0 ==> call.BucketAt(k - 1) != call.BucketAt(k)
    ensures Heads(strategy, Enforce(strategy, p, call.layers[k], call.request, call.times(k)), call)
  {
    if k > 0 {
      EnforceElsewhere(strategy, p, call.layers[k], call.request, call.times(k), call.BucketAt(k - 1));
    }
  }

  lemma {:induction false} PassFromHeads(strategy: Strategy, p: Passage, call: Call, k: nat)
    requires k <= |call.layers| && p.passed == k && p.retryAfter.None? && Heads(strategy, p, call)
    requires forall i :: 0 < i < |call.layers| ==> call.BucketAt(i - 1) != call.BucketAt(i)
    ensures Heads(strategy, PassFrom(strategy, p, call, k), call)
    decreases |call.layers| - k
  {
    if k < |call.layers| {
      var next := Enforce(strategy, p, call.layers[k], call.request, call.times(k));
      EnforceHeads(strategy, p, call, k);
      EnforceCounts(strategy, p, call.layers[k], call.request, call.times(k));
      if next.retryAfter.None? {
        PassFromHeads(strategy, next, call, k + 1);
        assert PassFrom(strategy, p, call, k) == PassFrom(strategy, next, call, k + 1);
      } else {
        assert PassFrom(strategy, p, call, k) == next;
      }
    }
  }

  lemma {:induction false} PassFromElsewhere(strategy: Strategy, p: Passage, call: Call, k: nat, b: Bucket)
    requires k <= |call.layers| && forall i :: k <= i < |call.layers| ==> call.BucketAt(i) != b
    ensures Own(PassFrom(strategy, p, call, k).records, b) == Own(p.records, b)
    decreases |call.layers| - k
  {
    if k < |call.layers| {
      var next := Enforce(strategy, p, call.layers[k], call.request, call.times(k));
      assert call.BucketAt(k) != b;
      EnforceElsewhere(strategy, p, call.layers[k], call.request, call.times(k), b);
      if next.retryAfter.None? {
        PassFromElsewhere(strategy, next, call, k + 1, b);
      }
    }
  }

  lemma {:induction false} PassedGrows(strategy: Strategy, p: Passage, call: Call, k: nat)
    requires k <= |call.layers|
    ensures PassFrom(strategy, p, call, k).passed >= p.passed
    decreases |call.layers| - k
  {
    if k < |call.layers| {
      var next := Enforce(strategy, p, call.layers[k], call.request, call.times(k));
      if next.retryAfter.None? {
        PassedGrows(strategy, next, call, k + 1);
      }
    }
  }

  /** From layer k on, layer j records what the limit it reaches leaves there. */
  ghost predicate Leaves(p: Passage, after: Passage, call: Call, k: nat, j: nat)
    requires j < |call.layers|
  {
    && after.passed >= k
    && Own(after.records, call.BucketAt(j)) == Own(p.records, call.BucketAt(j)) + NewHits(call, after.passed, j)
  }

  lemma PassFromHere(strategy: Strategy, p: Passage, call: Call, k: nat)
    requires k < |call.layers| && p.passed == k
    requires forall i :: k < i < |call.layers| ==> call.BucketAt(i) != call.BucketAt(k)
    ensures Leaves(p, PassFrom(strategy, p, call, k), call, k, k)
  {
    var next := Enforce(strategy, p, call.layers[k], call.request, call.times(k));
    EnforceRecords(strategy, p, call.layers[k], call.request, call.times(k));
    if next.retryAfter.None? {
      PassFromElsewhere(strategy, next, call, k + 1, call.BucketAt(k));
      PassedGrows(strategy, next, call, k + 1);
      assert PassFrom(strategy, p, call, k) == PassFrom(strategy, next, call, k + 1);
    } else {
      assert PassFrom(strategy, p, call, k) == next;
    }
  }

  lemma LeavesLater(p: Passage, next: Passage, after: Passage, call: Call, k: nat, j: nat)
    requires j < |call.layers| && Own(next.records, call.BucketAt(j)) == Own(p.records, call.BucketAt(j))
    requires Leaves(next, after, call, k + 1, j)
    ensures Leaves(p, after, call, k, j)
  {
  }

  lemma LeavesNothing(p: Passage, next: Passage, call: Call, k: nat, j: nat)
    requires k < j < |call.layers| && Own(next.records, call.BucketAt(j)) == Own(p.records, call.BucketAt(j))
    requires next.passed == k
    ensures Leaves(p, next, call, k, j)
  {
  }

  lemma {:induction false} PassFromLayer(strategy: Strategy, p: Passage, call: Call, k: nat, j: nat)
    requires k <= j < |call.layers| && p.passed == k
    requires forall i :: k <= i < |call.layers| && i != j ==> call.BucketAt(i) != call.BucketAt(j)
    ensures Leaves(p, PassFrom(strategy, p, call, k), call, k, j)
    decreases |call.layers| - k
  {
    if k == j {
      PassFromHere(strategy, p, call, k);
    } else {
      var next := Enforce(strategy, p, call.layers[k], call.request, call.times(k));
      assert call.BucketAt(k) != call.BucketAt(j);
      EnforceElsewhere(strategy, p, call.layers[k], call.request, call.times(k), call.BucketAt(j));
      if next.retryAfter.None? {
        PassFromLayer(strategy, next, call, k + 1, j);
        LeavesLater(p, next, PassFrom(strategy, next, call, k + 1), call, k, j);
        assert PassFrom(strategy, p, call, k) == PassFrom(strategy, next, call, k + 1);
      } else {
        assert PassFrom(strategy, p, call, k) == next;
        LeavesNothing(p, next, call, k, j);
      }
    }
  }

  /** The limits count in order: each one that lets the request through records one admitted hit, the one that
      refuses records one refused hit, and those behind it and every other bucket record nothing. The headers
      are those of the last limit passed. */
  lemma LayersInOrder(strategy: Strategy, records: Records, call: Call)
    requires call.Plain() && call.Layered()
    ensures var after := Pass(strategy, records, call);
            && after.passed <= |call.layers|
            && (after.retryAfter.None? <==> after.passed == |call.layers|)
            && after.meta == (if after.passed == 0 then None
                              else Some(Shown(strategy, after.records, call, after.passed - 1)))
            && (after.retryAfter.Some? ==> after.retryAfter.value == Wait(strategy, after.records, call, after.passed))
            && (forall j :: 0 <= j < |call.layers| ==>
                  Own(after.records, call.BucketAt(j))
                      == Own(records, call.BucketAt(j)) + NewHits(call, after.passed, j))
            && forall b :: (forall j :: 0 <= j < |call.layers| ==> b != call.BucketAt(j)) ==>
                 Own(after.records, b) == Own(records, b)
  {
    var start := Passage(records, None, 0, None);
    PassFromStops(strategy, start, call, 0);
    forall i, j | 0 <= i < |call.layers| && 0 <= j < |call.layers| && i != j
      ensures call.BucketAt(i) != call.BucketAt(j)
    {
      SharedExactly(call.layers[i], call.request, call.layers[j], call.request);
    }
    PassFromHeads(strategy, start, call, 0);
    forall j | 0 <= j < |call.layers|
      ensures var after := Pass(strategy, records, call);
              Own(after.records, call.BucketAt(j)) == Own(records, call.BucketAt(j)) + NewHits(call, after.passed, j)
    {
      PassFromLayer(strategy, start, call, 0, j);
    }
    forall b | forall j :: 0 <= j < |call.layers| ==> b != call.BucketAt(j)
      ensures Own(Pass(strategy, records, call).records, b) == Own(records, b)
    {
      PassFromElsewhere(strategy, start, call, 0, b);
    }
  }

  // ---- runs ----------------------------------------------------------------------------------------

  /** What is recorded after the calls, served one after another. */
  function After(strategy: Strategy, calls: seq<Call>): Records {
    if calls == [] then map[]
    else Pass(strategy, After(strategy, calls[..|calls| - 1]), calls[|calls| - 1]).records
  }

  /** The answer to one more call. */
  function Answer(strategy: Strategy, calls: seq<Call>, call: Call): Passage {
    Pass(strategy, After(strategy, calls), call)
  }

  /** Any stretch of time a strategy may use as a window. */
  datatype Span = Span(from: Instant, to: Instant) {
    predicate Has(t: Instant) {
      from <= t < to
    }
  }

  function Admitted(own: seq<Attempt>, w: Span): nat {
    if own == [] then 0
    else
      var last := own[|own| - 1];
      Admitted(own[..|own| - 1], w) + if last.allowed && w.Has(last.at) then 1 else 0
  }

  /** The limiter admits a hit in the window only while fewer than the amount have been admitted there. */
  ghost predicate Respected(rate: Rate, own: seq<Attempt>, w: Span) {
    forall k :: 0 <= k < |own| && own[k].allowed && w.Has(own[k].at) ==> Admitted(own[..k], w) < rate.amount
  }

  lemma {:induction false} AdmittedWithin(rate: Rate, own: seq<Attempt>, w: Span)
    requires Respected(rate, own, w)
    ensures Admitted(own, w) <= rate.amount
  {
    if own != [] {
      var n := |own| - 1;
      assert forall k :: 0 <= k < n ==> own[..n][..k] == own[..k];
      AdmittedWithin(rate, own[..n], w);
      assert own[n] == own[|own| - 1];
    }
  }

  /** The call is one of this client's, on this path where the limit is per path, and meets the limit within
      the window. */
  ghost predicate Counts(call: Call, limit: Limit, request: Request, w: Span) {
    && call.request.client == request.client && (limit.perPath ==> call.request.path == request.path)
    && exists k :: 0 <= k < |call.layers| && call.layers[k] == limit && w.Has(call.times(k).hit)
  }

  /** How many such calls every limit let through. */
  ghost function Served(strategy: Strategy, calls: seq<Call>, limit: Limit, request: Request, w: Span): nat {
    if calls == [] then 0
    else
      var n := |calls| - 1;
      Served(strategy, calls[..n], limit, request, w)
      + if Counts(calls[n], limit, request, w) && Answer(strategy, calls[..n], calls[n]).retryAfter.None? then 1 else 0
  }

  lemma AdmittedMore(own: seq<Attempt>, last: Attempt, w: Span)
    ensures Admitted(own + [last], w) == Admitted(own, w) + if last.allowed && w.Has(last.at) then 1 else 0
  {
    assert (own + [last])[..|own|] == own;
  }

  /** How many hits are admitted in the bucket within the window. */
  function AdmittedAt(p: Passage, b: Bucket, w: Span): nat {
    Admitted(Own(p.records, b), w)
  }

  lemma EnforceAdmits(strategy: Strategy, p: Passage, limit: Limit, request: Request, r: Reading, b: Bucket, w: Span)
    ensures var next := Enforce(strategy, p, limit, request, r);
            AdmittedAt(next, b, w) == AdmittedAt(p, b, w)
              + if BucketOf(limit, request) == b && next.retryAfter.None? && w.Has(r.hit) then 1 else 0
  {
    EnforceRecords(strategy, p, limit, request, r);
    if BucketOf(limit, request) == b {
      AdmittedMore(Own(p.records, b), Attempt(r.hit, Enforce(strategy, p, limit, request, r).retryAfter.None?), w);
    }
  }

  /** Hits are only added; a request every layer from k on lets through is admitted at layer j. */
  ghost predicate Gains(p: Passage, after: Passage, call: Call, k: nat, j: nat, b: Bucket, w: Span) {
    && AdmittedAt(after, b, w) >= AdmittedAt(p, b, w)
    && (after.retryAfter.None? && k <= j < |call.layers| && call.BucketAt(j) == b && w.Has(call.times(j).hit) ==>
          AdmittedAt(after, b, w) > AdmittedAt(p, b, w))
  }

  lemma {:induction false} PassFromAdmits(
    strategy: Strategy, p: Passage, call: Call, k: nat, j: nat, b: Bucket, w: Span)
    requires k <= |call.layers| && p.retryAfter.None?
    ensures Gains(p, PassFrom(strategy, p, call, k), call, k, j, b, w)
    decreases |call.layers| - k
  {
    if k < |call.layers| {
      var next := Enforce(strategy, p, call.layers[k], call.request, call.times(k));
      EnforceAdmits(strategy, p, call.layers[k], call.request, call.times(k), b, w);
      if next.retryAfter.None? {
        PassFromAdmits(strategy, next, call, k + 1, j, b, w);
        assert PassFrom(strategy, p, call, k) == PassFrom(strategy, next, call, k + 1);
      } else {
        assert PassFrom(strategy, p, call, k) == next;
      }
    }
  }

  lemma {:induction false} ServedWereAdmitted(
    strategy: Strategy, calls: seq<Call>, limit: Limit, request: Request, w: Span)
    ensures Served(strategy, calls, limit, request, w)
         <= Admitted(Own(After(strategy, calls), BucketOf(limit, request)), w)
  {
    if calls != [] {
      var n := |calls| - 1;
      ServedWereAdmitted(strategy, calls[..n], limit, request, w);
      var start := Passage(After(strategy, calls[..n]), None, 0, None);
      if Counts(calls[n], limit, request, w) {
        var k :| 0 <= k < |calls[n].layers| && calls[n].layers[k] == limit && w.Has(calls[n].times(k).hit);
        assert calls[n].BucketAt(k) == BucketOf(limit, request);
        PassFromAdmits(strategy, start, calls[n], 0, k, BucketOf(limit, request), w);
      } else {
        PassFromAdmits(strategy, start, calls[n], 0, 0, BucketOf(limit, request), w);
      }
    }
  }

  lemma RecordBoundsServed(strategy: Strategy, calls: seq<Call>, limit: Limit, request: Request, w: Span)
    requires Respected(limit.rate, Own(After(strategy, calls), BucketOf(limit, request)), w)
    ensures Served(strategy, calls, limit, request, w) <= limit.rate.amount
  {
    ServedWereAdmitted(strategy, calls, limit, request, w);
    AdmittedWithin(limit.rate, Own(After(strategy, calls), BucketOf(limit, request)), w);
  }

  // ---- a limiter that keeps a window leaves such a record ------------------------------------------

  /** The strategy keeps the window: it admits a hit there only while fewer than the amount have been admitted
      there. One that looks back from the hit (`orderly`) need do so only for records no later than the hit. */
  ghost predicate Keeps(strategy: Strategy, rate: Rate, w: Span, orderly: bool) {
    forall own, now :: strategy.admits(rate, own, now) && w.Has(now) && (orderly ==> NoneAfter(own, now)) ==>
      Admitted(own, w) < rate.amount
  }

  ghost predicate NoneAfter(own: seq<Attempt>, now: Instant) {
    forall i :: 0 <= i < |own| ==> own[i].at <= now
  }

  ghost predicate Ascending(own: seq<Attempt>) {
    forall i, j :: 0 <= i < j < |own| ==> own[i].at <= own[j].at
  }

  /** Each attempt was decided by the strategy from the record before it. */
  ghost predicate Decided(strategy: Strategy, rate: Rate, own: seq<Attempt>) {
    forall k :: 0 <= k < |own| ==> own[k].allowed == strategy.admits(rate, own[..k], own[k].at)
  }

  lemma DecidedMore(strategy: Strategy, rate: Rate, own: seq<Attempt>, now: Instant)
    requires Decided(strategy, rate, own)
    ensures Decided(strategy, rate, own + [Attempt(now, strategy.admits(rate, own, now))])
  {
    var more := own + [Attempt(now, strategy.admits(rate, own, now))];
    forall k | 0 <= k < |more|
      ensures more[k].allowed == strategy.admits(rate, more[..k], more[k].at)
    {
      assert more[..k] == own[..k];
      assert k == |own| ==> more[..k] == own;
    }
  }

  lemma EnforceDecides(strategy: Strategy, p: Passage, limit: Limit, request: Request, r: Reading, b: Bucket)
    requires Decided(strategy, b.rate, Own(p.records, b))
    ensures Decided(strategy, b.rate, Own(Enforce(strategy, p, limit, request, r).records, b))
  {
    if b == BucketOf(limit, request) {
      DecidedMore(strategy, b.rate, Own(p.records, b), r.hit);
    }
  }

  lemma {:induction false} PassFromDecides(strategy: Strategy, p: Passage, call: Call, k: nat, b: Bucket)
    requires k <= |call.layers| && Decided(strategy, b.rate, Own(p.records, b))
    ensures Decided(strategy, b.rate, Own(PassFrom(strategy, p, call, k).records, b))
    decreases |call.layers| - k
  {
    if k < |call.layers| {
      var next := Enforce(strategy, p, call.layers[k], call.request, call.times(k));
      EnforceDecides(strategy, p, call.layers[k], call.request, call.times(k), b);
      if next.retryAfter.None? {
        PassFromDecides(strategy, next, call, k + 1, b);
        assert PassFrom(strategy, p, call, k) == PassFrom(strategy, next, call, k + 1);
      } else {
        assert PassFrom(strategy, p, call, k) == next;
      }
    }
  }

  lemma {:induction false} RunDecides(strategy: Strategy, calls: seq<Call>, b: Bucket)
    ensures Decided(strategy, b.rate, Own(After(strategy, calls), b))
  {
    if calls != [] {
      var n := |calls| - 1;
      RunDecides(strategy, calls[..n], b);
      PassFromDecides(strategy, Passage(After(strategy, calls[..n]), None, 0, None), calls[n], 0, b);
    }
  }

  // ---- on a clock that never runs backwards, records ascend ----------------------------------------

  ghost predicate InOrder(call: Call) {
    forall k, m :: 0 <= k <= m < |call.layers| ==> call.times(k).hit <= call.times(m).hit
  }

  ghost predicate Before(call: Call, now: Instant) {
    forall k :: 0 <= k < |call.layers| ==> call.times(k).hit <= now
  }

  /** The hits of a run read a clock that never runs backwards. */
  ghost predicate NeverBack(calls: seq<Call>) {
    && (forall i :: 0 <= i < |calls| ==> InOrder(calls[i]))
    && (forall i, j, m :: 0 <= i < j < |calls| && 0 <= m < |calls[j].layers| ==>
        Before(calls[i], calls[j].times(m).hit))
  }

  lemma {:induction false} PassFromNoneAfter(
    strategy: Strategy, p: Passage, call: Call, k: nat, b: Bucket, now: Instant)
    requires k <= |call.layers| && Before(call, now) && NoneAfter(Own(p.records, b), now)
    ensures NoneAfter(Own(PassFrom(strategy, p, call, k).records, b), now)
    decreases |call.layers| - k
  {
    if k < |call.layers| {
      var next := Enforce(strategy, p, call.layers[k], call.request, call.times(k));
      EnforceRecords(strategy, p, call.layers[k], call.request, call.times(k));
      assert call.times(k).hit <= now;
      if next.retryAfter.None? {
        PassFromNoneAfter(strategy, next, call, k + 1, b, now);
        assert PassFrom(strategy, p, call, k) == PassFrom(strategy, next, call, k + 1);
      } else {
        assert PassFrom(strategy, p, call, k) == next;
      }
    }
  }

  lemma {:induction false} RunNoneAfter(strategy: Strategy, calls: seq<Call>, b: Bucket, now: Instant)
    requires forall i :: 0 <= i < |calls| ==> Before(calls[i], now)
    ensures NoneAfter(Own(After(strategy, calls), b), now)
  {
    if calls != [] {
      var n := |calls| - 1;
      RunNoneAfter(strategy, calls[..n], b, now);
      PassFromNoneAfter(strategy, Passage(After(strategy, calls[..n]), None, 0, None), calls[n], 0, b, now);
    }
  }

  lemma {:induction false} PassFromAscends(strategy: Strategy, p: Passage, call: Call, k: nat, b: Bucket)
    requires k <= |call.layers| && InOrder(call) && Ascending(Own(p.records, b))
    requires forall m :: k <= m < |call.layers| ==> NoneAfter(Own(p.records, b), call.times(m).hit)
    ensures Ascending(Own(PassFrom(strategy, p, call, k).records, b))
    decreases |call.layers| - k
  {
    if k < |call.layers| {
      var next := Enforce(strategy, p, call.layers[k], call.request, call.times(k));
      EnforceRecords(strategy, p, call.layers[k], call.request, call.times(k));
      assert NoneAfter(Own(p.records, b), call.times(k).hit);
      if next.retryAfter.None? {
        forall m | k + 1 <= m < |call.layers|
          ensures NoneAfter(Own(next.records, b), call.times(m).hit)
        {
          assert NoneAfter(Own(p.records, b), call.times(m).hit) && call.times(k).hit <= call.times(m).hit;
        }
        PassFromAscends(strategy, next, call, k + 1, b);
        assert PassFrom(strategy, p, call, k) == PassFrom(strategy, next, call, k + 1);
      } else {
        assert PassFrom(strategy, p, call, k) == next;
      }
    }
  }

  lemma {:induction false} RunAscends(strategy: Strategy, calls: seq<Call>, b: Bucket)
    requires NeverBack(calls)
    ensures Ascending(Own(After(strategy, calls), b))
  {
    if calls != [] {
      var n := |calls| - 1;
      RunAscends(strategy, calls[..n], b);
      forall m | 0 <= m < |calls[n].layers|
        ensures NoneAfter(Own(After(strategy, calls[..n]), b), calls[n].times(m).hit)
      {
        RunNoneAfter(strategy, calls[..n], b, calls[n].times(m).hit);
      }
      PassFromAscends(strategy, Passage(After(strategy, calls[..n]), None, 0, None), calls[n], 0, b);
    }
  }

  lemma DecidedRespects(strategy: Strategy, rate: Rate, own: seq<Attempt>, w: Span, orderly: bool)
    requires Decided(strategy, rate, own) && Keeps(strategy, rate, w, orderly) && (orderly ==> Ascending(own))
    ensures Respected(rate, own, w)
  {
    forall k | 0 <= k < |own| && own[k].allowed && w.Has(own[k].at)
      ensures Admitted(own[..k], w) < rate.amount
    {
      assert strategy.admits(rate, own[..k], own[k].at);
      assert orderly ==> NoneAfter(own[..k], own[k].at);
    }
  }

  /** Over any limiter that keeps a window, in every run, whatever the other limits do, no client is served more
      often in that window than any limit on the way allows: app-wide for a limit that is not per path, path by
      path for one that is. A limiter that looks back from the hit needs a clock that never runs backwards. */
  lemma BudgetsKept(strategy: Strategy, calls: seq<Call>, limit: Limit, request: Request, w: Span, orderly: bool)
    requires Keeps(strategy, limit.rate, w, orderly) && (orderly ==> NeverBack(calls))
    ensures Served(strategy, calls, limit, request, w) <= limit.rate.amount
  {
    var b := BucketOf(limit, request);
    RunDecides(strategy, calls, b);
    if orderly {
      RunAscends(strategy, calls, b);
    }
    DecidedRespects(strategy, limit.rate, Own(After(strategy, calls), b), w, orderly);
    RecordBoundsServed(strategy, calls, limit, request, w);
  }

  // ---- limiters that keep windows ------------------------------------------------------------------

  /** Fixed windows: multiples of the period. */
  function FixedSpan(rate: Rate, now: Instant): Span
    requires rate.period > 0
  {
    Span(now - now % (rate.period * SECOND), now - now % (rate.period * SECOND) + rate.period * SECOND)
  }

  /** Moving windows: the period up to now. */
  function MovingSpan(rate: Rate, now: Instant): Span {
    Span(now - rate.period * SECOND + 1, now + 1)
  }

  lemma {:induction false} AdmittedIsMonotone(own: seq<Attempt>, w: Span, v: Span)
    requires forall i :: 0 <= i < |own| && w.Has(own[i].at) ==> v.Has(own[i].at)
    ensures Admitted(own, w) <= Admitted(own, v)
  {
    if own != [] {
      AdmittedIsMonotone(own[..|own| - 1], w, v);
    }
  }

  /** A limiter that counts over the moving window keeps every span no longer than its period. */
  lemma MovingKeeps(strategy: Strategy, rate: Rate, w: Span)
    requires forall own, now ::
               strategy.admits(rate, own, now) <==> Admitted(own, MovingSpan(rate, now)) < rate.amount
    requires w.to - w.from <= rate.period * SECOND
    ensures Keeps(strategy, rate, w, true)
  {
    forall own, now | strategy.admits(rate, own, now) && w.Has(now) && NoneAfter(own, now)
      ensures Admitted(own, w) < rate.amount
    {
      AdmittedIsMonotone(own, w, MovingSpan(rate, now));
    }
  }

  /** One that counts over the fixed window keeps every fixed window, whatever the order of the readings. */
  lemma FixedKeeps(strategy: Strategy, rate: Rate, at: Instant)
    requires rate.period > 0
    requires forall own, now ::
               strategy.admits(rate, own, now) <==> Admitted(own, FixedSpan(rate, now)) < rate.amount
    ensures Keeps(strategy, rate, FixedSpan(rate, at), false)
  {
    forall own, now | strategy.admits(rate, own, now) && FixedSpan(rate, at).Has(now)
      ensures Admitted(own, FixedSpan(rate, at)) < rate.amount
    {
      SameFixedSpan(rate.period * SECOND, at, now);
    }
  }

  lemma SameFixedSpan(length: int, at: Instant, now: Instant)
    requires length > 0 && at - at % length <= now < at - at % length + length
    ensures now - now % length == at - at % length
  {
    var q := at / length;
    assert at == q * length + at % length;
    assert now / length == q by {
      var d := now - q * length;
      assert 0 <= d < length;
      QuotientIs(now, length, q, d);
    }
  }

  lemma QuotientIs(n: int, length: int, q: int, d: int)
    requires length > 0 && 0 <= d < length && n == q * length + d
    ensures n / length == q
  {
    var e := n / length - q;
    assert n == (n / length) * length + n % length;
    assert (n / length) * length - q * length == e * length;
    assert e * length == d - n % length;
    assert e >= 1 ==> e * length >= length;
    assert e <= -1 ==> e * length <= -length;
  }

  // ---- clients do not affect one another -----------------------------------------------------------

  function Of(calls: seq<Call>, client: string): seq<Call> {
    if calls == [] then []
    else
      var last := calls[|calls| - 1];
      Of(calls[..|calls| - 1], client) + if last.request.client == client then [last] else []
  }

  /** The same record in every bucket of the client. */
  ghost predicate Agree(a: Records, b: Records, client: string) {
    forall limit, request :: PlainPrefix(limit) && WellNamed(request) && request.client == client ==>
      Own(a, BucketOf(limit, request)) == Own(b, BucketOf(limit, request))
  }

  lemma RecordedAgrees(strategy: Strategy, a: Records, b: Records, limit: Limit, request: Request, now: Instant)
    requires PlainPrefix(limit) && WellNamed(request) && Agree(a, b, request.client)
    ensures Agree(Recorded(strategy, a, BucketOf(limit, request), now),
                  Recorded(strategy, b, BucketOf(limit, request), now), request.client)
  {
    assert Own(a, BucketOf(limit, request)) == Own(b, BucketOf(limit, request));
  }

  lemma RecordedElsewhere(
    strategy: Strategy, a: Records, b: Records, limit: Limit, request: Request, now: Instant, client: string)
    requires PlainPrefix(limit) && WellNamed(request) && request.client != client && Agree(a, b, client)
    ensures Agree(Recorded(strategy, a, BucketOf(limit, request), now), b, client)
  {
    forall l, r | PlainPrefix(l) && WellNamed(r) && r.client == client
      ensures BucketOf(l, r) != BucketOf(limit, request)
    {
      SharedExactly(l, r, limit, request);
    }
  }

  lemma {:induction false} PassFromAgrees(strategy: Strategy, p: Passage, q: Passage, call: Call, k: nat)
    requires k <= |call.layers| && call.Plain()
    requires Agree(p.records, q.records, call.request.client) && q == p.(records := q.records)
    ensures var one, two := PassFrom(strategy, p, call, k), PassFrom(strategy, q, call, k);
            Agree(one.records, two.records, call.request.client) && two == one.(records := two.records)
    decreases |call.layers| - k
  {
    if k < |call.layers| {
      RecordedAgrees(strategy, p.records, q.records, call.layers[k], call.request, call.times(k).hit);
      assert Own(p.records, call.BucketAt(k)) == Own(q.records, call.BucketAt(k));
      var one := Enforce(strategy, p, call.layers[k], call.request, call.times(k));
      var two := Enforce(strategy, q, call.layers[k], call.request, call.times(k));
      if one.retryAfter.None? {
        PassFromAgrees(strategy, one, two, call, k + 1);
      }
    }
  }

  lemma {:induction false} PassFromOthers(
    strategy: Strategy, p: Passage, call: Call, k: nat, b: Records, client: string)
    requires k <= |call.layers| && call.Plain() && call.request.client != client && Agree(p.records, b, client)
    ensures Agree(PassFrom(strategy, p, call, k).records, b, client)
    decreases |call.layers| - k
  {
    if k < |call.layers| {
      RecordedElsewhere(strategy, p.records, b, call.layers[k], call.request, call.times(k).hit, client);
      var next := Enforce(strategy, p, call.layers[k], call.request, call.times(k));
      if next.retryAfter.None? {
        PassFromOthers(strategy, next, call, k + 1, b, client);
      }
    }
  }

  lemma {:induction false} OwnCallsDecide(strategy: Strategy, calls: seq<Call>, client: string)
    requires forall i :: 0 <= i < |calls| ==> calls[i].Plain()
    ensures Agree(After(strategy, calls), After(strategy, Of(calls, client)), client)
  {
    if calls != [] {
      var n := |calls| - 1;
      OwnCallsDecide(strategy, calls[..n], client);
      var full, mine := After(strategy, calls[..n]), After(strategy, Of(calls[..n], client));
      if calls[n].request.client == client {
        PassFromAgrees(strategy, Passage(full, None, 0, None), Passage(mine, None, 0, None), calls[n], 0);
        var own := Of(calls, client);
        assert own[..|own| - 1] == Of(calls[..n], client);
      } else {
        PassFromOthers(strategy, Passage(full, None, 0, None), calls[n], 0, mine, client);
        assert Of(calls, client) == Of(calls[..n], client);
      }
    }
  }

  /** Every answer a client gets, with its headers and its `retry_after`, is the one it would get had no other
      client ever called: no client can use up the budget of another. */
  lemma ClientsAreIsolated(strategy: Strategy, calls: seq<Call>, call: Call)
    requires call.Plain() && forall i :: 0 <= i < |calls| ==> calls[i].Plain()
    ensures var among, alone := Answer(strategy, calls, call), Answer(strategy, Of(calls, call.request.client), call);
            among.retryAfter == alone.retryAfter && among.meta == alone.meta && among.passed == alone.passed
  {
    var client := call.request.client;
    OwnCallsDecide(strategy, calls, client);
    PassFromAgrees(strategy, Passage(After(strategy, calls), None, 0, None),
                   Passage(After(strategy, Of(calls, client)), None, 0, None), call, 0);
  }
}
