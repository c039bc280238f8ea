/** The per-IP request limiter: internal/app/middleware/ratelimit.go.
    Times are nanoseconds of one monotonic clock.  Token levels are counted in
    billionths of a token, so that `rate` tokens a second refill `rate` units
    each nanosecond and all arithmetic is exact.  The bucket is the one
    golang.org/x/time/rate documents: capacity `burst`, initially full. */
module RateLimit {
  const TOKEN := 1_000_000_000
  const IDLE := 180_000_000_000

  type Ip = string

  datatype Config = Config(rate: nat, burst: nat)

  datatype Bucket = Bucket(level: int, last: nat)

  datatype Visitor = Visitor(bucket: Bucket, lastSeen: nat)

  datatype Event = Request(ip: Ip, at: nat) | Cleanup(at: nat)

  function Capacity(c: Config): nat { c.burst * TOKEN }

  /** What the given time refills: `rate` units each nanosecond. */
  function Refill(rate: nat, time: int): nat {
    if time <= 0 then 0 else rate + Refill(rate, time - 1)
  }

  /** A clock reading before `last` refills nothing. */
  function LevelAt(c: Config, b: Bucket, now: nat): int {
    var refilled := b.level + Refill(c.rate, now - b.last);
    if refilled > Capacity(c) then Capacity(c) else refilled
  }

  /** Limiter.Allow: refill, then take one token if a whole one is there. */
  function Take(c: Config, b: Bucket, now: nat): (Bucket, bool) {
    var level := LevelAt(c, b, now);
    if level >= TOKEN then (Bucket(level - TOKEN, now), true) else (Bucket(level, now), false)
  }

  // ----- The limiter with eviction -----

  function Allow(c: Config, visitors: map<Ip, Visitor>, ip: Ip, now: nat): (map<Ip, Visitor>, bool) {
    var bucket := if ip in visitors then visitors[ip].bucket else Bucket(Capacity(c), now);
    var (b, ok) := Take(c, bucket, now);
    (visitors[ip := Visitor(b, now)], ok)
  }

  function Evict(visitors: map<Ip, Visitor>, now: nat): map<Ip, Visitor> {
    map ip | ip in visitors && now - visitors[ip].lastSeen <= IDLE :: visitors[ip]
  }

  /** A visitor is forgotten exactly if three minutes have gone by since the last request. */
  lemma EvictsAfterThreeMinutes(visitors: map<Ip, Visitor>, now: nat, ip: Ip)
    ensures var kept := Evict(visitors, now);
            && (ip in kept <==> ip in visitors && now <= visitors[ip].lastSeen + 3 * 60 * 1_000_000_000)
            && (ip in kept ==> kept[ip] == visitors[ip])
  {
  }

  class RateLimiter {
    const config: Config
    var visitors: map<Ip, Visitor>

    constructor (config: Config)
      ensures this.config == config && visitors == map[]
    {
      this.config := config;
      visitors := map[];
    }

    /** The middleware's check: getVisitor, then Allow on its limiter. */
    method Check(ip: Ip, now: nat) returns (ok: bool)
      modifies this
      ensures (visitors, ok) == Allow(config, old(visitors), ip, now)
    {
      var v: Visitor;
      if ip !in visitors {
        v := Visitor(Bucket(Capacity(config), now), now);
      } else {
        v := visitors[ip].(lastSeen := now);
      }
      var (bucket, admitted) := Take(config, v.bucket, now);
      visitors := visitors[ip := v.(bucket := bucket)];
      ok := admitted;
    }

    /** One tick of cleanupVisitors. */
    method CleanupVisitors(now: nat)
      modifies this
      ensures visitors == Evict(old(visitors), now)
    {
      var todo := visitors.Keys;
      ghost var done: set<Ip> := {};
      while todo != {}
        invariant todo !! done && todo + done == old(visitors).Keys
        invariant forall ip | ip in old(visitors) ::
                    ip in visitors <==> ip in todo || now - old(visitors)[ip].lastSeen <= IDLE
        invariant forall ip | ip in visitors :: ip in old(visitors) && visitors[ip] == old(visitors)[ip]
        decreases todo
      {
        var ip :| ip in todo;
        todo := todo - {ip};
        done := done + {ip};
        if now - visitors[ip].lastSeen > IDLE {
          visitors := visitors - {ip};
        }
      }
    }
  }

  /** Which events of a schedule are admitted requests. */
  function Run(c: Config, visitors: map<Ip, Visitor>, events: seq<Event>): (out: seq<bool>)
    ensures |out| == |events|
    decreases events
  {
    if events == [] then []
    else match events[0]
         case Request(ip, at) =>
           var (v, ok) := Allow(c, visitors, ip, at);
           [ok] + Run(c, v, events[1..])
         case Cleanup(at) => [false] + Run(c, Evict(visitors, at), events[1..])
  }

  // ----- The reference: a bucket per address, never evicted -----

  function BucketOf(c: Config, buckets: map<Ip, Bucket>, ip: Ip, now: nat): Bucket {
    if ip in buckets then buckets[ip] else Bucket(Capacity(c), now)
  }

  function After(c: Config, buckets: map<Ip, Bucket>, e: Event): map<Ip, Bucket> {
    match e
    case Request(ip, at) => buckets[ip := Take(c, BucketOf(c, buckets, ip, at), at).0]
    case Cleanup(_) => buckets
  }

  predicate Admits(c: Config, buckets: map<Ip, Bucket>, e: Event) {
    e.Request? && Take(c, BucketOf(c, buckets, e.ip, e.at), e.at).1
  }

  function Reference(c: Config, buckets: map<Ip, Bucket>, events: seq<Event>): (out: seq<bool>)
    ensures |out| == |events|
    decreases events
  {
    if events == [] then []
    else [Admits(c, buckets, events[0])] + Reference(c, After(c, buckets, events[0]), events[1..])
  }

  /** Events come in clock order, none before `now`. */
  predicate Ordered(events: seq<Event>, now: nat) {
    events == [] || (now <= events[0].at && Ordered(events[1..], events[0].at))
  }

  // ----- Eviction is not observable -----

  /** An idle visitor's bucket is full again by the time it may be evicted. */
  predicate RefillsWhileIdle(c: Config) {
    Capacity(c) <= c.rate * (IDLE + 1)
  }

  predicate Full(c: Config, b: Bucket, now: nat) {
    LevelAt(c, b, now) == Capacity(c)
  }

  ghost predicate Agrees(c: Config, visitors: map<Ip, Visitor>, buckets: map<Ip, Bucket>, now: nat) {
    && (forall ip | ip in visitors ::
          ip in buckets && visitors[ip].bucket == buckets[ip] && visitors[ip].lastSeen == buckets[ip].last)
    && (forall ip | ip in buckets :: Settled(buckets[ip], now))
    && (forall ip | ip in buckets && ip !in visitors :: Full(c, buckets[ip], now))
  }

  predicate Settled(b: Bucket, now: nat) { 0 <= b.level && b.last <= now }

  lemma {:induction false} RefillAdds(rate: nat, s: nat, t: nat)
    ensures Refill(rate, s + t) == Refill(rate, s) + Refill(rate, t)
    decreases t
  {
    if t > 0 { RefillAdds(rate, s, t - 1); }
  }

  lemma {:induction false} RefillIsProduct(rate: nat, time: nat)
    ensures Refill(rate, time) == rate * time
    decreases time
  {
    if time > 0 { RefillIsProduct(rate, time - 1); }
  }

  lemma RefillIsMonotone(c: Config, b: Bucket, now: nat, later: nat)
    requires b.last <= now <= later
    ensures LevelAt(c, b, now) <= LevelAt(c, b, later)
         <= LevelAt(c, b, now) + Refill(c.rate, later - now)
  {
    RefillAdds(c.rate, now - b.last, later - now);
  }

  lemma StaysFull(c: Config, b: Bucket, now: nat, later: nat)
    requires Settled(b, now) && now <= later && Full(c, b, now)
    ensures Full(c, b, later)
  {
    RefillIsMonotone(c, b, now, later);
  }

  lemma IdleBucketIsFull(c: Config, b: Bucket, now: nat)
    requires RefillsWhileIdle(c) && b.level >= 0 && now - b.last > IDLE
    ensures Full(c, b, now)
  {
    RefillIsProduct(c.rate, now - b.last);
    MoreTimeMoreTokens(IDLE + 1, now - b.last, c.rate);
  }

  lemma MoreTimeMoreTokens(short: nat, long: nat, rate: nat)
    requires short <= long
    ensures rate * short <= rate * long
  {
  }

  /** A full bucket behaves like a new one. */
  lemma FullIsNew(c: Config, b: Bucket, now: nat)
    requires Full(c, b, now)
    ensures Take(c, b, now) == Take(c, Bucket(Capacity(c), now), now)
  {
    assert LevelAt(c, Bucket(Capacity(c), now), now) == Capacity(c);
  }

  lemma TakeSettles(c: Config, b: Bucket, now: nat)
    requires Settled(b, now)
    ensures Settled(Take(c, b, now).0, now) && Take(c, b, now).0.last == now
  {
  }

  lemma RequestAgrees(c: Config, visitors: map<Ip, Visitor>, buckets: map<Ip, Bucket>, now: nat, ip: Ip, at: nat)
    requires Agrees(c, visitors, buckets, now) && now <= at
    ensures Allow(c, visitors, ip, at).1 == Admits(c, buckets, Request(ip, at))
    ensures Agrees(c, Allow(c, visitors, ip, at).0, After(c, buckets, Request(ip, at)), at)
  {
    forall other | other in buckets && other !in visitors ensures Full(c, buckets[other], at) {
      StaysFull(c, buckets[other], now, at);
    }
    var b := BucketOf(c, buckets, ip, at);
    if ip !in visitors && ip in buckets { FullIsNew(c, b, at); }
    TakeSettles(c, b, at);
    var seen := if ip in visitors then visitors[ip].bucket else Bucket(Capacity(c), at);
    assert Take(c, seen, at) == Take(c, b, at);
    SameEntry(c, visitors, buckets, ip, at, Take(c, b, at).0, now);
  }

  lemma SameEntry(c: Config, visitors: map<Ip, Visitor>, buckets: map<Ip, Bucket>,
                  ip: Ip, at: nat, b: Bucket, now: nat)
    requires Agrees(c, visitors, buckets, now) && now <= at
    requires forall other | other in buckets && other !in visitors :: Full(c, buckets[other], at)
    requires Settled(b, at) && b.last == at
    ensures Agrees(c, visitors[ip := Visitor(b, at)], buckets[ip := b], at)
  {
  }

  lemma CleanupAgrees(c: Config, visitors: map<Ip, Visitor>, buckets: map<Ip, Bucket>, now: nat, at: nat)
    requires RefillsWhileIdle(c) && Agrees(c, visitors, buckets, now) && now <= at
    ensures Agrees(c, Evict(visitors, at), buckets, at)
  {
    forall ip | ip in buckets && ip !in Evict(visitors, at) ensures Full(c, buckets[ip], at) {
      if ip in visitors {
        IdleBucketIsFull(c, buckets[ip], at);
      } else {
        StaysFull(c, buckets[ip], now, at);
      }
    }
  }

  lemma {:induction false} RunAgrees(c: Config, visitors: map<Ip, Visitor>, buckets: map<Ip, Bucket>,
                                     now: nat, events: seq<Event>)
    requires RefillsWhileIdle(c) && Agrees(c, visitors, buckets, now) && Ordered(events, now)
    ensures Run(c, visitors, events) == Reference(c, buckets, events)
    decreases events
  {
    if events != [] {
      match events[0] {
        case Request(ip, at) =>
          RequestAgrees(c, visitors, buckets, now, ip, at);
          RunAgrees(c, Allow(c, visitors, ip, at).0, After(c, buckets, events[0]), at, events[1..]);
        case Cleanup(at) =>
          CleanupAgrees(c, visitors, buckets, now, at);
          RunAgrees(c, Evict(visitors, at), buckets, at, events[1..]);
      }
    }
  }

  // ----- ... and only under that condition -----

  /** n requests from one address at one instant. */
  function Volley(ip: Ip, at: nat, n: nat): (events: seq<Event>)
    ensures |events| == n
  {
    if n == 0 then [] else [Request(ip, at)] + Volley(ip, at, n - 1)
  }

  lemma {:induction false} VolleyOrdered(ip: Ip, at: nat, n: nat, now: nat, tail: seq<Event>)
    requires now <= at && Ordered(tail, at)
    ensures Ordered(Volley(ip, at, n) + tail, now)
    decreases n
  {
    var events := Volley(ip, at, n) + tail;
    if n > 0 {
      VolleyOrdered(ip, at, n - 1, at, tail);
      assert events[1..] == Volley(ip, at, n - 1) + tail;
    } else {
      assert events == tail;
    }
  }

  /** A visitor holding n whole tokens has a volley of n admitted. */
  lemma {:induction false} VolleyAdmitted(c: Config, visitors: map<Ip, Visitor>, ip: Ip, at: nat, n: nat,
                                          tail: seq<Event>)
    requires ip in visitors && visitors[ip] == Visitor(Bucket(n * TOKEN, at), at) && n <= c.burst
    ensures var out := Run(c, visitors, Volley(ip, at, n) + tail);
            && (forall i | 0 <= i < n :: out[i])
            && out[n..] == Run(c, visitors[ip := Visitor(Bucket(0, at), at)], tail)
    decreases n
  {
    var events := Volley(ip, at, n) + tail;
    if n == 0 {
      assert events == tail;
      assert visitors == visitors[ip := Visitor(Bucket(0, at), at)];
    } else {
      OneToken(c, n, at);
      var v := visitors[ip := Visitor(Bucket((n - 1) * TOKEN, at), at)];
      assert Allow(c, visitors, ip, at) == (v, true);
      assert events[1..] == Volley(ip, at, n - 1) + tail;
      VolleyAdmitted(c, v, ip, at, n - 1, tail);
      assert v[ip := Visitor(Bucket(0, at), at)] == visitors[ip := Visitor(Bucket(0, at), at)];
    }
  }

  lemma OneToken(c: Config, n: nat, at: nat)
    requires 0 < n <= c.burst
    ensures Take(c, Bucket(n * TOKEN, at), at) == (Bucket((n - 1) * TOKEN, at), true)
  {
  }

  /** A bucket short of n whole tokens denies some request of a volley of n. */
  lemma {:induction false} VolleyDenied(c: Config, buckets: map<Ip, Bucket>, ip: Ip, at: nat, n: nat)
    requires ip in buckets && buckets[ip].last <= at
    requires LevelAt(c, buckets[ip], at) < n * TOKEN
    requires n > 0
    ensures false in Reference(c, buckets, Volley(ip, at, n))
    decreases n
  {
    var e := Request(ip, at);
    var out := Reference(c, buckets, Volley(ip, at, n));
    if !Admits(c, buckets, e) {
      assert out[0] == false;
    } else {
      assert n > 1;
      var next := After(c, buckets, e);
      assert Volley(ip, at, n)[1..] == Volley(ip, at, n - 1);
      VolleyDenied(c, next, ip, at, n - 1);
      assert out[1..] == Reference(c, next, Volley(ip, at, n - 1));
    }
  }

  lemma {:induction false} ReferenceVolley(c: Config, buckets: map<Ip, Bucket>, ip: Ip, at: nat, n: nat,
                                           tail: seq<Event>)
    requires ip in buckets && buckets[ip] == Bucket(n * TOKEN, at) && n <= c.burst
    ensures Reference(c, buckets, Volley(ip, at, n) + tail)[n..]
         == Reference(c, buckets[ip := Bucket(0, at)], tail)
    decreases n
  {
    var events := Volley(ip, at, n) + tail;
    if n == 0 {
      assert events == tail;
      assert buckets == buckets[ip := Bucket(0, at)];
    } else {
      OneToken(c, n, at);
      var b := buckets[ip := Bucket((n - 1) * TOKEN, at)];
      assert After(c, buckets, events[0]) == b && Admits(c, buckets, events[0]);
      assert events[1..] == Volley(ip, at, n - 1) + tail;
      ReferenceVolley(c, b, ip, at, n - 1, tail);
      assert b[ip := Bucket(0, at)] == buckets[ip := Bucket(0, at)];
    }
  }

  /** A first request finds a bucket as full as one already waiting. */
  lemma NewVisitor(c: Config, ip: Ip, at: nat, tail: seq<Event>)
    requires c.burst > 0
    ensures var events := Volley(ip, at, c.burst) + tail;
            && Run(c, map[], events) == Run(c, map[ip := Visitor(Bucket(Capacity(c), at), at)], events)
            && Reference(c, map[], events) == Reference(c, map[ip := Bucket(Capacity(c), at)], events)
  {
    var events := Volley(ip, at, c.burst) + tail;
    var b := Take(c, Bucket(Capacity(c), at), at).0;
    var none: map<Ip, Visitor> := map[];
    var one := map[ip := Visitor(Bucket(Capacity(c), at), at)];
    assert none[ip := Visitor(b, at)] == one[ip := Visitor(b, at)];
    var none': map<Ip, Bucket> := map[];
    var one' := map[ip := Bucket(Capacity(c), at)];
    assert none'[ip := b] == one'[ip := b];
    assert events[0] == Request(ip, at);
  }

  /** Drain a bucket, wait just long enough to be evicted, and ask again: with a
      burst that does not refill in that time, eviction shows. */
  function Probe(c: Config, ip: Ip): (events: seq<Event>)
    ensures |events| == 2 * c.burst + 1
  {
    Volley(ip, 0, c.burst) + ([Cleanup(IDLE + 1)] + Volley(ip, IDLE + 1, c.burst))
  }

  lemma ProbeWithEviction(c: Config, ip: Ip)
    requires c.burst > 0
    ensures false !in Run(c, map[], Probe(c, ip))[c.burst + 1..]
  {
    var n := c.burst;
    var late := Volley(ip, IDLE + 1, n);
    var tail := [Cleanup(IDLE + 1)] + late;
    NewVisitor(c, ip, 0, tail);
    var full := map[ip := Visitor(Bucket(Capacity(c), 0), 0)];
    VolleyAdmitted(c, full, ip, 0, n, tail);
    var drained := full[ip := Visitor(Bucket(0, 0), 0)];
    assert Run(c, map[], Probe(c, ip))[n..] == Run(c, drained, tail);
    AfterCleanup(c, drained, ip, late);
    assert late == late + [];
    NewVisitor(c, ip, IDLE + 1, []);
    VolleyAdmitted(c, map[ip := Visitor(Bucket(Capacity(c), IDLE + 1), IDLE + 1)], ip, IDLE + 1, n, []);
  }

  lemma AfterCleanup(c: Config, drained: map<Ip, Visitor>, ip: Ip, late: seq<Event>)
    requires drained == map[ip := Visitor(Bucket(0, 0), 0)]
    ensures Run(c, drained, [Cleanup(IDLE + 1)] + late)[1..] == Run(c, map[], late)
  {
    assert Evict(drained, IDLE + 1) == map[];
    assert ([Cleanup(IDLE + 1)] + late)[1..] == late;
  }

  lemma ProbeWithoutEviction(c: Config, ip: Ip)
    requires !RefillsWhileIdle(c)
    ensures false in Reference(c, map[], Probe(c, ip))[c.burst + 1..]
  {
    var n := c.burst;
    var tail := [Cleanup(IDLE + 1)] + Volley(ip, IDLE + 1, n);
    NewVisitor(c, ip, 0, tail);
    var bucket := map[ip := Bucket(Capacity(c), 0)];
    ReferenceVolley(c, bucket, ip, 0, n, tail);
    var empty := bucket[ip := Bucket(0, 0)];
    DrainedStaysShort(c);
    VolleyDenied(c, empty, ip, IDLE + 1, n);
    assert tail[1..] == Volley(ip, IDLE + 1, n);
    assert Reference(c, map[], Probe(c, ip))[n..][1..] == Reference(c, empty, tail[1..]);
  }

  lemma DrainedStaysShort(c: Config)
    requires !RefillsWhileIdle(c)
    ensures LevelAt(c, Bucket(0, 0), IDLE + 1) < c.burst * TOKEN
  {
    RefillIsProduct(c.rate, IDLE + 1);
  }

  lemma EvictionShows(c: Config, ip: Ip)
    requires !RefillsWhileIdle(c)
    ensures Ordered(Probe(c, ip), 0)
    ensures Run(c, map[], Probe(c, ip)) != Reference(c, map[], Probe(c, ip))
  {
    var late := Volley(ip, IDLE + 1, c.burst);
    var tail := [Cleanup(IDLE + 1)] + late;
    assert late == late + [] && tail[1..] == late;
    VolleyOrdered(ip, IDLE + 1, c.burst, IDLE + 1, []);
    VolleyOrdered(ip, 0, c.burst, 0, tail);
    ProbeWithEviction(c, ip);
    ProbeWithoutEviction(c, ip);
  }

  /** Eviction never changes a decision, on any schedule, exactly when a bucket
      refills completely in the shortest idle time that allows eviction. */
  lemma EvictionUnobservable(c: Config)
    ensures RefillsWhileIdle(c) <==>
            forall events | Ordered(events, 0) :: Run(c, map[], events) == Reference(c, map[], events)
  {
    if RefillsWhileIdle(c) {
      forall events | Ordered(events, 0) ensures Run(c, map[], events) == Reference(c, map[], events) {
        RunAgrees(c, map[], map[], 0, events);
      }
    } else {
      EvictionShows(c, "client");
    }
  }

  // ----- How much a window admits -----

  /** Requests of one address that a run admitted. */
  function Admitted(events: seq<Event>, out: seq<bool>, ip: Ip): nat
    requires |events| == |out|
  {
    if events == [] then 0
    else (if events[0].Request? && events[0].ip == ip && out[0] then 1 else 0)
         + Admitted(events[1..], out[1..], ip)
  }

  /** The level a bucket has, or will be created with. */
  function Level(c: Config, buckets: map<Ip, Bucket>, ip: Ip, now: nat): int {
    LevelAt(c, BucketOf(c, buckets, ip, now), now)
  }

  ghost predicate Sound(buckets: map<Ip, Bucket>, now: nat) {
    forall ip | ip in buckets :: Settled(buckets[ip], now)
  }

  lemma StepSpends(c: Config, buckets: map<Ip, Bucket>, ip: Ip, now: nat, e: Event)
    requires Sound(buckets, now) && now <= e.at
    ensures Sound(After(c, buckets, e), e.at)
    ensures var spent := if Admits(c, buckets, e) && e.ip == ip then TOKEN else 0;
            Level(c, After(c, buckets, e), ip, e.at) + spent
            <= Level(c, buckets, ip, now) + Refill(c.rate, e.at - now)
  {
    if ip in buckets { RefillIsMonotone(c, buckets[ip], now, e.at); }
    if e.Request? {
      TakeSettles(c, BucketOf(c, buckets, e.ip, e.at), e.at);
    }
  }

  lemma {:induction false} ReferenceWindow(c: Config, buckets: map<Ip, Bucket>, ip: Ip, now: nat, end: nat,
                                           events: seq<Event>)
    requires Sound(buckets, now) && now <= end
    requires Ordered(events, now) && (events != [] ==> events[|events| - 1].at <= end)
    ensures Admitted(events, Reference(c, buckets, events), ip) * TOKEN
         <= Level(c, buckets, ip, now) + Refill(c.rate, end - now)
    decreases events
  {
    hide Sound, Admits, Refill, Level, After;
    if events == [] {
      NeverNegative(c, buckets, ip, now);
    } else {
      var e := events[0];
      LastIsLatest(events);
      StepSpends(c, buckets, ip, now, e);
      ReferenceWindow(c, After(c, buckets, e), ip, e.at, end, events[1..]);
      RefillAdds(c.rate, e.at - now, end - e.at);
      assert Reference(c, buckets, events)[1..] == Reference(c, After(c, buckets, e), events[1..]);
    }
  }

  lemma NeverNegative(c: Config, buckets: map<Ip, Bucket>, ip: Ip, now: nat)
    requires Sound(buckets, now)
    ensures Level(c, buckets, ip, now) >= 0
  {
  }

  lemma {:induction false} LastIsLatest(events: seq<Event>)
    requires events != [] && Ordered(events, 0)
    ensures events[0].at <= events[|events| - 1].at
    decreases events
  {
    if |events| > 1 {
      OrderedFromZero(events[1..], events[0].at);
      LastIsLatest(events[1..]);
    }
  }

  lemma OrderedFromZero(events: seq<Event>, now: nat)
    requires Ordered(events, now)
    ensures Ordered(events, 0)
  {
  }

  function AfterAll(c: Config, buckets: map<Ip, Bucket>, events: seq<Event>): map<Ip, Bucket>
    decreases events
  {
    if events == [] then buckets else AfterAll(c, After(c, buckets, events[0]), events[1..])
  }

  lemma {:induction false} ReferenceSplits(c: Config, buckets: map<Ip, Bucket>, before: seq<Event>,
                                           window: seq<Event>, now: nat)
    requires Sound(buckets, now) && Ordered(before + window, now)
    ensures Reference(c, buckets, before + window)[|before|..] == Reference(c, AfterAll(c, buckets, before), window)
    ensures window != [] ==> Sound(AfterAll(c, buckets, before), window[0].at)
    ensures Ordered(window, if window == [] then 0 else window[0].at)
    decreases before
  {
    var events := before + window;
    if before == [] {
      assert events == window;
    } else {
      assert events[1..] == before[1..] + window;
      StepSpends(c, buckets, "", now, events[0]);
      ReferenceSplits(c, After(c, buckets, events[0]), before[1..], window, events[0].at);
    }
  }

  /** Any window of the schedule that spans T nanoseconds admits at most burst
      requests of one address, plus those the rate refills in T. */
  lemma WindowBound(c: Config, ip: Ip, before: seq<Event>, window: seq<Event>)
    requires RefillsWhileIdle(c) && window != [] && Ordered(before + window, 0)
    ensures var span := window[|window| - 1].at - window[0].at;
            Admitted(window, Run(c, map[], before + window)[|before|..], ip) * TOKEN
            <= c.burst * TOKEN + c.rate * span
  {
    RunAgrees(c, map[], map[], 0, before + window);
    ReferenceSplits(c, map[], before, window, 0);
    var buckets := AfterAll(c, map[], before);
    OrderedFromZero(window, window[0].at);
    LastIsLatest(window);
    var span := window[|window| - 1].at - window[0].at;
    ReferenceWindow(c, buckets, ip, window[0].at, window[|window| - 1].at, window);
    RefillIsProduct(c.rate, span);
  }
  // ----- What a denial costs, and when a request is admitted -----

  /** A level below a whole token turns a request down and is kept; a request that is
      admitted takes exactly one token; no other address notices. */
  lemma LevelsAfter(c: Config, buckets: map<Ip, Bucket>, e: Event, ip: Ip, now: nat, later: nat)
    requires Sound(buckets, now) && now <= e.at <= later
    ensures Admits(c, buckets, e) <==> e.Request? && Level(c, buckets, e.ip, e.at) >= TOKEN
    ensures Level(c, After(c, buckets, e), ip, later)
         == if Admits(c, buckets, e) && e.ip == ip
            then Capped(c, Level(c, buckets, ip, e.at) - TOKEN + c.rate * (later - e.at))
            else Level(c, buckets, ip, later)
  {
    if e.Request? && e.ip == ip {
      hide LevelAt, Refill;
      BucketSettled(c, buckets, ip, now, e.at);
      LevelOfTaken(c, BucketOf(c, buckets, ip, e.at), e.at, later);
    }
  }

  lemma BucketSettled(c: Config, buckets: map<Ip, Bucket>, ip: Ip, now: nat, at: nat)
    requires Sound(buckets, now) && now <= at
    ensures Settled(BucketOf(c, buckets, ip, at), at)
    ensures ip !in buckets ==>
              forall later: nat | later >= at ::
                LevelAt(c, BucketOf(c, buckets, ip, at), later) == Level(c, buckets, ip, later)
  {
  }

  lemma LevelOfTaken(c: Config, b: Bucket, at: nat, later: nat)
    requires Settled(b, at) && at <= later
    ensures var (after, ok) := Take(c, b, at);
            LevelAt(c, after, later)
            == if ok then Capped(c, LevelAt(c, b, at) - TOKEN + c.rate * (later - at)) else LevelAt(c, b, later)
  {
    RefillIsProduct(c.rate, later - at);
    RefillAdds(c.rate, at - b.last, later - at);
  }

  function Capped(c: Config, level: int): int { if level > c.burst * TOKEN then c.burst * TOKEN else level }

  /** The bucket as it is meant: full before the first admission; each admission takes a
      token, and between them `rate` units come back each nanosecond, up to the burst.
      Denials play no part. */
  function Ideal(c: Config, admissions: seq<nat>, at: nat): int {
    if admissions == [] then c.burst * TOKEN
    else
      var last := admissions[|admissions| - 1];
      Capped(c, Ideal(c, admissions[..|admissions| - 1], last) - TOKEN + c.rate * (at - last))
  }

  /** The times at which requests of an address were admitted. */
  function Admissions(events: seq<Event>, out: seq<bool>, ip: Ip): seq<nat>
    requires |events| == |out|
  {
    if events == [] then []
    else
      var n := |events| - 1;
      Admissions(events[..n], out[..n], ip)
      + if events[n].Request? && events[n].ip == ip && out[n] then [events[n].at] else []
  }

  lemma {:induction false} AfterAllLast(c: Config, buckets: map<Ip, Bucket>, events: seq<Event>, e: Event)
    ensures AfterAll(c, buckets, events + [e]) == After(c, AfterAll(c, buckets, events), e)
    ensures Reference(c, buckets, events + [e])
         == Reference(c, buckets, events) + [Admits(c, AfterAll(c, buckets, events), e)]
    decreases events
  {
    var all := events + [e];
    if events == [] {
      assert all[1..] == [];
      assert AfterAll(c, After(c, buckets, e), []) == After(c, buckets, e);
    } else {
      assert all[1..] == events[1..] + [e];
      AfterAllLast(c, After(c, buckets, events[0]), events[1..], e);
    }
  }

  lemma {:induction false} OrderedFront(events: seq<Event>, e: Event, now: nat)
    requires Ordered(events + [e], now)
    ensures Ordered(events, now) && now <= e.at && (events != [] ==> events[|events| - 1].at <= e.at)
    decreases events
  {
    var all := events + [e];
    if events != [] {
      assert all[1..] == events[1..] + [e];
      OrderedFront(events[1..], e, events[0].at);
    }
  }

  /** When the last of these events came. */
  function LastAt(events: seq<Event>): nat { if events == [] then 0 else events[|events| - 1].at }

  /** The level of every address follows from when its requests were admitted. */
  lemma {:induction false} LevelIsIdeal(c: Config, events: seq<Event>, ip: Ip, at: nat)
    requires Ordered(events, 0) && LastAt(events) <= at
    ensures Sound(AfterAll(c, map[], events), at)
    ensures Level(c, AfterAll(c, map[], events), ip, at)
         == Ideal(c, Admissions(events, Reference(c, map[], events), ip), at)
    decreases |events|
  {
    hide Take, LevelAt, Refill, Sound, Level, Ordered, Reference, AfterAll;
    if events == [] {
      NothingYet(c, ip, at);
    } else {
      var n := |events| - 1;
      var front, e := events[..n], events[n];
      assert events == front + [e];
      OrderedFront(front, e, 0);
      AfterAllLast(c, map[], front, e);
      var buckets := AfterAll(c, map[], front);
      var out := Reference(c, map[], events);
      assert out[..n] == Reference(c, map[], front);
      LevelIsIdeal(c, front, ip, e.at);
      LevelIsIdeal(c, front, ip, at);
      LevelsAfter(c, buckets, e, ip, e.at, at);
      StaysSound(c, buckets, e, at);
      var before := Admissions(front, out[..n], ip);
      if out[n] && e.Request? && e.ip == ip {
        var all := before + [e.at];
        assert all[..|all| - 1] == before;
      } else {
        assert Admissions(events, out, ip) == before + [];
        assert before + [] == before;
      }
    }
  }

  lemma NothingYet(c: Config, ip: Ip, at: nat)
    ensures Sound(AfterAll(c, map[], []), at) && Level(c, AfterAll(c, map[], []), ip, at) == c.burst * TOKEN
    ensures Admissions([], Reference(c, map[], []), ip) == []
  {
  }

  lemma StaysSound(c: Config, buckets: map<Ip, Bucket>, e: Event, later: nat)
    requires Sound(buckets, e.at) && e.at <= later
    ensures Sound(After(c, buckets, e), later)
  {
    if e.Request? { TakeSettles(c, BucketOf(c, buckets, e.ip, e.at), e.at); }
  }

  lemma {:induction false} ReferencePrefix(c: Config, buckets: map<Ip, Bucket>, events: seq<Event>, k: nat)
    requires k <= |events|
    ensures Reference(c, buckets, events)[..k] == Reference(c, buckets, events[..k])
    decreases k
  {
    if k > 0 {
      assert events[..k][1..] == events[1..][..k - 1];
      ReferencePrefix(c, After(c, buckets, events[0]), events[1..], k - 1);
    }
  }

  lemma {:induction false} OrderedPrefix(events: seq<Event>, k: nat, now: nat)
    requires Ordered(events, now) && k <= |events|
    ensures Ordered(events[..k], now)
    decreases k
  {
    if k > 0 {
      assert events[..k][1..] == events[1..][..k - 1];
      OrderedPrefix(events[1..], k - 1, events[0].at);
    }
  }

  /** A request is admitted if and only if the ideal bucket of its address holds a whole
      token at that time: what is left after the last admission, and what the rate has
      refilled since.  A first request is admitted exactly if the burst is not zero. */
  lemma AdmittedExactly(c: Config, events: seq<Event>, k: nat)
    requires RefillsWhileIdle(c) && Ordered(events, 0) && k < |events| && events[k].Request?
    ensures var out := Run(c, map[], events);
            out[k] <==> Ideal(c, Admissions(events[..k], out[..k], events[k].ip), events[k].at) >= TOKEN
  {
    hide Take, LevelAt, Refill, Sound, Ordered, Reference, AfterAll, Ideal, Run, RefillsWhileIdle, Level;
    RunAgrees(c, map[], map[], 0, events);
    var upTo := events[..k + 1];
    var front, e := events[..k], events[k];
    assert upTo == front + [e];
    OrderedPrefix(events, k + 1, 0);
    OrderedFront(front, e, 0);
    ReferencePrefix(c, map[], events, k + 1);
    ReferencePrefix(c, map[], events, k);
    AfterAllLast(c, map[], front, e);
    assert Reference(c, map[], events)[k] == Reference(c, map[], upTo)[k];
    LevelIsIdeal(c, front, e.ip, e.at);
    LevelsAfter(c, AfterAll(c, map[], front), e, e.ip, e.at, e.at);
  }
  /** The two states give every address the same level from now on. */
  ghost predicate Alike(c: Config, p: map<Ip, Bucket>, q: map<Ip, Bucket>, now: nat) {
    && Sound(p, now) && Sound(q, now)
    && (forall ip: Ip, t: nat | t >= now :: Level(c, p, ip, t) == Level(c, q, ip, t))
  }

  lemma AlikeAfter(c: Config, p: map<Ip, Bucket>, q: map<Ip, Bucket>, now: nat, e: Event)
    requires Alike(c, p, q, now) && now <= e.at
    ensures Admits(c, p, e) == Admits(c, q, e) && Alike(c, After(c, p, e), After(c, q, e), e.at)
  {
    hide Take, LevelAt, Level;
    LevelsAfter(c, p, e, "", now, e.at);
    LevelsAfter(c, q, e, "", now, e.at);
    StaysSound(c, p, e, e.at);
    StaysSound(c, q, e, e.at);
    forall ip: Ip, t: nat | t >= e.at ensures Level(c, After(c, p, e), ip, t) == Level(c, After(c, q, e), ip, t) {
      LevelsAfter(c, p, e, ip, now, t);
      LevelsAfter(c, q, e, ip, now, t);
    }
  }

  lemma {:induction false} AlikeDecides(c: Config, p: map<Ip, Bucket>, q: map<Ip, Bucket>, now: nat,
                                        events: seq<Event>)
    requires Alike(c, p, q, now) && Ordered(events, now)
    ensures Reference(c, p, events) == Reference(c, q, events)
    decreases events
  {
    hide Alike, Admits, After;
    if events != [] {
      AlikeAfter(c, p, q, now, events[0]);
      AlikeDecides(c, After(c, p, events[0]), After(c, q, events[0]), events[0].at, events[1..]);
    }
  }

  lemma DeniedIsAlike(c: Config, buckets: map<Ip, Bucket>, e: Event)
    requires Sound(buckets, e.at) && !Admits(c, buckets, e)
    ensures Alike(c, After(c, buckets, e), buckets, e.at)
  {
    hide Take, LevelAt, Level;
    StaysSound(c, buckets, e, e.at);
    forall ip: Ip, t: nat | t >= e.at ensures Level(c, After(c, buckets, e), ip, t) == Level(c, buckets, ip, t) {
      LevelsAfter(c, buckets, e, ip, e.at, t);
    }
  }

  /** A decision at position k left out. */
  function Dropped(out: seq<bool>, k: nat): seq<bool>
    requires k < |out|
  {
    out[..k] + out[k + 1..]
  }

  lemma {:induction false} DeniedDropped(c: Config, buckets: map<Ip, Bucket>, before: seq<Event>, e: Event,
                                         after: seq<Event>, now: nat)
    requires Sound(buckets, now) && Ordered(before + [e] + after, now)
    requires !Reference(c, buckets, before + [e] + after)[|before|]
    ensures Reference(c, buckets, before + after)
         == Dropped(Reference(c, buckets, before + [e] + after), |before|)
    ensures Ordered(before + after, now)
    decreases before
  {
    hide Admits, After, Sound;
    var events := before + [e] + after;
    if before == [] {
      assert events[1..] == after && before + after == after;
      SoundLater(buckets, now, e.at);
      DeniedIsAlike(c, buckets, e);
      AlikeDecides(c, After(c, buckets, e), buckets, e.at, after);
      OrderedEarlier(after, e.at, now);
    } else {
      assert events[1..] == before[1..] + [e] + after;
      assert (before + after)[1..] == before[1..] + after;
      StepSpends(c, buckets, "", now, before[0]);
      DeniedDropped(c, After(c, buckets, before[0]), before[1..], e, after, before[0].at);
      HeadKept(Reference(c, buckets, events), Reference(c, buckets, before + after), |before|);
    }
  }

  lemma SoundLater(buckets: map<Ip, Bucket>, now: nat, later: nat)
    requires Sound(buckets, now) && now <= later
    ensures Sound(buckets, later)
  {
  }

  lemma OrderedEarlier(events: seq<Event>, later: nat, now: nat)
    requires Ordered(events, later) && now <= later
    ensures Ordered(events, now)
  {
  }

  /** Leaving a denied request out of a schedule changes no other decision. */
  ghost predicate DenialsCostNothing(c: Config) {
    forall before: seq<Event>, e: Event, after: seq<Event> |
      Ordered(before + [e] + after, 0) && e.Request? && !Run(c, map[], before + [e] + after)[|before|] ::
      Run(c, map[], before + after) == Dropped(Run(c, map[], before + [e] + after), |before|)
  }

  /** Each visitor's bucket was last looked at when the visitor was last seen. */
  ghost predicate InStep(visitors: map<Ip, Visitor>, now: nat) {
    forall ip | ip in visitors ::
      visitors[ip].bucket.last == visitors[ip].lastSeen <= now && visitors[ip].bucket.level >= 0
  }

  /** When a token comes back every nanosecond, only a second request at the very same
      instant is ever denied, and that leaves no trace at all. */
  lemma DeniedLeavesNoTrace(c: Config, visitors: map<Ip, Visitor>, ip: Ip, at: nat)
    requires c.rate >= TOKEN && c.burst > 0 && InStep(visitors, at) && !Allow(c, visitors, ip, at).1
    ensures Allow(c, visitors, ip, at).0 == visitors
  {
    assert ip in visitors;
    var b := visitors[ip].bucket;
    RefillIsProduct(c.rate, at - b.last);
    assert b.last == at;
    assert visitors[ip := visitors[ip]] == visitors;
  }

  lemma KeptInStep(c: Config, visitors: map<Ip, Visitor>, now: nat, e: Event)
    requires InStep(visitors, now) && now <= e.at
    ensures InStep(Next(c, visitors, e), e.at)
  {
  }

  /** The visitors after one event. */
  function Next(c: Config, visitors: map<Ip, Visitor>, e: Event): map<Ip, Visitor> {
    match e
    case Request(ip, at) => Allow(c, visitors, ip, at).0
    case Cleanup(at) => Evict(visitors, at)
  }

  lemma RunStep(c: Config, visitors: map<Ip, Visitor>, events: seq<Event>)
    requires events != []
    ensures Run(c, visitors, events)[1..] == Run(c, Next(c, visitors, events[0]), events[1..])
    ensures Run(c, visitors, events)[0]
       <==> events[0].Request? && Allow(c, visitors, events[0].ip, events[0].at).1
  {
  }

  lemma {:induction false} FastDenialDropped(c: Config, visitors: map<Ip, Visitor>, before: seq<Event>, e: Event,
                                             after: seq<Event>, now: nat)
    requires c.rate >= TOKEN && c.burst > 0 && InStep(visitors, now) && Ordered(before + [e] + after, now)
    requires e.Request? && !Run(c, visitors, before + [e] + after)[|before|]
    ensures Run(c, visitors, before + after) == Dropped(Run(c, visitors, before + [e] + after), |before|)
    decreases before
  {
    hide Run, Allow, Evict, InStep;
    var events := before + [e] + after;
    RunStep(c, visitors, events);
    if before == [] {
      assert events[1..] == after && before + after == after;
      StillInStep(visitors, now, e.at);
      DeniedLeavesNoTrace(c, visitors, e.ip, e.at);
    } else {
      assert events[1..] == before[1..] + [e] + after;
      assert (before + after)[1..] == before[1..] + after;
      RunStep(c, visitors, before + after);
      KeptInStep(c, visitors, now, before[0]);
      hide Next;
      FastDenialDropped(c, Next(c, visitors, before[0]), before[1..], e, after, before[0].at);
      HeadKept(Run(c, visitors, events), Run(c, visitors, before + after), |before|);
    }
  }

  lemma StillInStep(visitors: map<Ip, Visitor>, now: nat, later: nat)
    requires InStep(visitors, now) && now <= later
    ensures InStep(visitors, later)
  {
  }

  lemma HeadKept(long: seq<bool>, short: seq<bool>, k: nat)
    requires 0 < k < |long| && |short| == |long| - 1 && short[0] == long[0]
    requires short[1..] == Dropped(long[1..], k - 1)
    ensures short == Dropped(long, k)
  {
    assert short == [short[0]] + short[1..] && long == [long[0]] + long[1..];
    assert long[..k] == [long[0]] + long[1..][..k - 1] && long[k + 1..] == long[1..][k..];
  }

  /** Without cleanups there is nothing to tell the limiter and the reference apart. */
  lemma {:induction false} VolleyAgrees(c: Config, visitors: map<Ip, Visitor>, buckets: map<Ip, Bucket>, ip: Ip,
                                        at: nat, n: nat)
    requires Agrees(c, visitors, buckets, at)
    ensures Run(c, visitors, Volley(ip, at, n)) == Reference(c, buckets, Volley(ip, at, n))
    decreases n
  {
    hide Agrees, Allow, Admits, After;
    if n > 0 {
      assert Volley(ip, at, n)[1..] == Volley(ip, at, n - 1);
      RequestAgrees(c, visitors, buckets, at, ip, at);
      VolleyAgrees(c, Allow(c, visitors, ip, at).0, After(c, buckets, Request(ip, at)), ip, at, n - 1);
    }
  }

  /** A request that is turned down and yet keeps the visitor from being evicted. */
  lemma KnockKeepsVisitor(c: Config, ip: Ip)
    requires !RefillsWhileIdle(c) && c.rate < TOKEN
    ensures var drained := map[ip := Visitor(Bucket(0, 0), 0)];
            var out := Run(c, drained, [Request(ip, 1), Cleanup(IDLE + 1)] + Volley(ip, IDLE + 1, c.burst));
            !out[0] && false in out[2..]
  {
    hide Run, Allow, Evict, Refill;
    var drained := map[ip := Visitor(Bucket(0, 0), 0)];
    var late := Volley(ip, IDLE + 1, c.burst);
    var events := [Request(ip, 1), Cleanup(IDLE + 1)] + late;
    var b := Bucket(c.rate, 1);
    BurstNotZero(c);
    RefillIsProduct(c.rate, 1);
    Knocked(c, drained, ip, b);
    var knocked := drained[ip := Visitor(b, 1)];
    NotEvicted(knocked, ip, b);
    assert events[1..] == [Cleanup(IDLE + 1)] + late && events[1..][1..] == late;
    RunStep(c, drained, events);
    RunStep(c, knocked, events[1..]);
    assert Run(c, drained, events)[2..] == Run(c, drained, events)[1..][1..];
    KnockedShort(c, b);
    VolleyDenied(c, map[ip := b], ip, IDLE + 1, c.burst);
    VolleyAgrees(c, knocked, map[ip := b], ip, IDLE + 1, c.burst);
  }

  lemma NotEvicted(knocked: map<Ip, Visitor>, ip: Ip, b: Bucket)
    requires knocked == map[ip := Visitor(b, 1)]
    ensures Evict(knocked, IDLE + 1) == knocked
  {
  }

  lemma KnockedShort(c: Config, b: Bucket)
    requires !RefillsWhileIdle(c) && b == Bucket(c.rate, 1)
    ensures LevelAt(c, b, IDLE + 1) < c.burst * TOKEN
  {
    hide Refill;
    RefillIsProduct(c.rate, IDLE);
  }

  lemma Knocked(c: Config, drained: map<Ip, Visitor>, ip: Ip, b: Bucket)
    requires drained == map[ip := Visitor(Bucket(0, 0), 0)] && b == Bucket(c.rate, 1)
    requires Refill(c.rate, 1) == c.rate < TOKEN && c.burst > 0
    ensures Allow(c, drained, ip, 1) == (drained[ip := Visitor(b, 1)], false)
  {
  }

  /** Drain the bucket, knock, and come back when the visitor could have been evicted. */
  function Knock(c: Config, ip: Ip): (seq<Event>, Event, seq<Event>) {
    (Volley(ip, 0, c.burst), Request(ip, 1), [Cleanup(IDLE + 1)] + Volley(ip, IDLE + 1, c.burst))
  }

  lemma KnockOrdered(c: Config, ip: Ip)
    ensures var (before, e, after) := Knock(c, ip); Ordered(before + [e] + after, 0)
  {
    var (before, e, after) := Knock(c, ip);
    var late := Volley(ip, IDLE + 1, c.burst);
    assert late == late + [] && after[1..] == late && ([e] + after)[1..] == after;
    VolleyOrdered(ip, IDLE + 1, c.burst, IDLE + 1, []);
    VolleyOrdered(ip, 0, c.burst, 0, [e] + after);
    assert before + [e] + after == before + ([e] + after);
  }

  lemma KnockDecides(c: Config, ip: Ip)
    requires !RefillsWhileIdle(c) && c.rate < TOKEN
    ensures var (before, e, after) := Knock(c, ip);
            var out := Run(c, map[], before + [e] + after);
            !out[c.burst] && false in out[c.burst + 2..]
  {
    hide Run;
    var (before, e, after) := Knock(c, ip);
    var n := c.burst;
    var late := Volley(ip, IDLE + 1, n);
    assert before + [e] + after == before + ([e] + after);
    assert [e] + after == [e, Cleanup(IDLE + 1)] + late;
    NewVisitor(c, ip, 0, [e] + after);
    var full := map[ip := Visitor(Bucket(Capacity(c), 0), 0)];
    VolleyAdmitted(c, full, ip, 0, n, [e] + after);
    assert full[ip := Visitor(Bucket(0, 0), 0)] == map[ip := Visitor(Bucket(0, 0), 0)];
    KnockKeepsVisitor(c, ip);
    var out := Run(c, map[], before + [e] + after);
    assert out[n] == out[n..][0] && out[n + 2..] == out[n..][2..];
  }

  lemma KnockShows(c: Config, ip: Ip)
    requires !RefillsWhileIdle(c) && c.rate < TOKEN
    ensures !DenialsCostNothing(c)
  {
    hide Run, RefillsWhileIdle, Ordered;
    var (before, e, after) := Knock(c, ip);
    KnockOrdered(c, ip);
    KnockDecides(c, ip);
    BurstNotZero(c);
    ProbeWithEviction(c, ip);
    assert before + after == Probe(c, ip);
    var out := Run(c, map[], before + [e] + after);
    assert Dropped(out, c.burst)[c.burst + 1..] == out[c.burst + 2..];
    assert Run(c, map[], before + after) != Dropped(out, c.burst);
  }

  /** A denied request costs nothing, on any schedule, exactly when idle buckets refill
      before they can be evicted, or a whole token comes back every nanosecond; in every
      other case being turned down can keep a visitor from being forgotten. */
  lemma DenialsCostNothingExactly(c: Config)
    ensures DenialsCostNothing(c) <==> RefillsWhileIdle(c) || c.rate >= TOKEN
  {
    hide RefillsWhileIdle;
    if RefillsWhileIdle(c) || c.rate >= TOKEN {
      forall before: seq<Event>, e: Event, after: seq<Event> |
        Ordered(before + [e] + after, 0) && e.Request? && !Run(c, map[], before + [e] + after)[|before|]
        ensures Run(c, map[], before + after) == Dropped(Run(c, map[], before + [e] + after), |before|)
      {
        if RefillsWhileIdle(c) {
          RunAgrees(c, map[], map[], 0, before + [e] + after);
          DeniedDropped(c, map[], before, e, after, 0);
          RunAgrees(c, map[], map[], 0, before + after);
        } else {
          BurstNotZero(c);
          FastDenialDropped(c, map[], before, e, after, 0);
        }
      }
    } else {
      KnockShows(c, "client");
    }
  }

  lemma BurstNotZero(c: Config)
    requires !RefillsWhileIdle(c)
    ensures c.burst > 0
  {
  }
}
