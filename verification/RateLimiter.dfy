/**
 The per-address token bucket of the registry proxy, over a table that is itself an LRU.
 Tokens and times are real numbers; clock readings are arbitrary, not even monotone.
 */
module RateLimiter {
  import opened Common
  import opened Lru

  datatype Bucket = Bucket(tokens: real, lastRefillMs: real)

  datatype Config = Config(burst: real, refillPerSec: real, maxIps: nat)

  predicate Sensible(config: Config) {
    config.burst >= 1.0 && config.refillPerSec >= 0.0 && config.maxIps >= 1
  }

  function Min(a: real, b: real): real {
    if a < b then a else b
  }

  function Refilled(config: Config, b: Option<Bucket>, now: real): Bucket {
    match b
    case None => Bucket(config.burst, now)
    case Some(b) => Bucket(Min(config.burst, b.tokens + Gain(config, b.lastRefillMs, now)), now)
  }

  /** Tokens earned between two clock readings. */
  function Gain(config: Config, from: real, to: real): real {
    (to - from) / 1000.0 * config.refillPerSec
  }

  function Decision(config: Config, t: seq<Entry<string, Bucket>>, ip: string, now: real): bool {
    Refilled(config, Find(t, ip), now).tokens >= 1.0
  }

  function Spent(b: Bucket): Bucket {
    if b.tokens >= 1.0 then b.(tokens := b.tokens - 1.0) else b
  }

  function AfterAllow(config: Config, t: seq<Entry<string, Bucket>>, ip: string, now: real): seq<Entry<string, Bucket>> {
    Evict(Put(t, ip, Spent(Refilled(config, Find(t, ip), now))), config.maxIps)
  }

  class TokenBucketRateLimiter {
    const config: Config
    var buckets: seq<Entry<string, Bucket>>

    ghost predicate Valid()
      reads this
    {
      Sensible(config) && Unique(buckets) && |buckets| <= config.maxIps
    }

    constructor (burst: real, refillPerSec: real, maxIps: int)
      ensures Valid() && buckets == []
      ensures config == Config(if burst < 1.0 then 1.0 else burst,
                               if refillPerSec < 0.0 then 0.0 else refillPerSec,
                               if maxIps < 1 then 1 else maxIps)
    {
      config := Config(if burst < 1.0 then 1.0 else burst,
                       if refillPerSec < 0.0 then 0.0 else refillPerSec,
                       if maxIps < 1 then 1 else maxIps);
      buckets := [];
    }

    method Allow(ip: string, now: real) returns (allowed: bool)
      requires Valid()
      modifies this
      ensures Valid()
      ensures buckets == AfterAllow(config, old(buckets), ip, now)
      ensures allowed == Decision(config, old(buckets), ip, now)
    {
      var found := Find(buckets, ip);
      ghost var start := buckets;
      RemoveFacts(buckets, ip);
      var b: Bucket;
      if found.None? {
        b := Bucket(config.burst, now);
      } else {
        b := found.value;
        buckets := Remove(buckets, ip);
        var elapsedSec := (now - b.lastRefillMs) / 1000.0;
        b := Bucket(Min(config.burst, b.tokens + elapsedSec * config.refillPerSec), now);
      }
      allowed := false;
      if b.tokens >= 1.0 {
        b := b.(tokens := b.tokens - 1.0);
        allowed := true;
      }
      PutFacts(start, ip, b);
      buckets := buckets + [Entry(ip, b)];
      assert b == Spent(Refilled(config, found, now));
      assert buckets == Put(start, ip, b);
      buckets := EvictOldest(buckets, config.maxIps);
    }
  }

  // ---- every history ----------------------------------------------------------------

  /** Every request so far, the latest outermost. */
  datatype History = Start | Then(past: History, ip: string, now: real)

  function Run(config: Config, h: History): seq<Entry<string, Bucket>> {
    match h
    case Start => []
    case Then(past, ip, now) => AfterAllow(config, Run(config, past), ip, now)
  }

  predicate Asked(h: History, ip: string) {
    h.Then? && (h.ip == ip || Asked(h.past, ip))
  }

  /** The other addresses that asked since `ip` last did. */
  function OthersSince(h: History, ip: string): set<string> {
    if h.Start? || h.ip == ip then {} else OthersSince(h.past, ip) + {h.ip}
  }

  /** Has `ip` a bucket? Said without the table: it asked, and fewer than `maxIps` others did since. */
  predicate Remembered(config: Config, h: History, ip: string) {
    Asked(h, ip) && |OthersSince(h, ip)| < config.maxIps
  }

  lemma {:induction false} RunIsUnique(config: Config, h: History)
    ensures Unique(Run(config, h)) && |Run(config, h)| <= config.maxIps
  {
    if h.Then? {
      RunIsUnique(config, h.past);
      var t := Run(config, h.past);
      PutFacts(t, h.ip, Spent(Refilled(config, Find(t, h.ip), h.now)));
    }
  }

  /** The keys after `k` in the table. */
  ghost function Later<V>(t: seq<Entry<string, V>>, k: string): set<string> {
    if t == [] then {}
    else if t[|t| - 1].key == k then {}
    else Later(t[..|t| - 1], k) + {t[|t| - 1].key}
  }

  lemma {:induction false} LaterAfterRemove<V>(t: seq<Entry<string, V>>, k: string, x: string)
    requires x != k
    ensures Later(Remove(t, k), x) == Later(t, x) - {k}
  {
    if t != [] {
      LaterAfterRemove(t[..|t| - 1], k, x);
    }
  }

  lemma {:induction false} LaterAfterDrop<V>(t: seq<Entry<string, V>>, x: string)
    requires Unique(t) && t != []
    ensures x in Keys(t[1..]) ==> Later(t[1..], x) == Later(t, x)
    ensures x == t[0].key ==> Later(t, x) == Keys(t[1..])
  {
    var init, last := t[..|t| - 1], t[|t| - 1];
    if |t| > 1 {
      LaterAfterDrop(init, x);
      assert t[1..][..|t| - 2] == init[1..] && t[1..] == init[1..] + [last];
      KeysOfSnoc(init[1..], last);
    }
  }

  lemma {:induction false} LaterAreKeys<V>(t: seq<Entry<string, V>>, x: string)
    requires Unique(t)
    ensures Later(t, x) <= Keys(t) - {x}
  {
    if t != [] {
      LaterAreKeys(t[..|t| - 1], x);
      LastIsNew(t);
    }
  }

  /** The table holds exactly the remembered addresses, and after each one exactly those that asked since. */
  lemma {:induction false} TableIsRecency(config: Config, h: History, x: string)
    requires Sensible(config)
    ensures x in Keys(Run(config, h)) <==> Remembered(config, h, x)
    ensures x in Keys(Run(config, h)) ==> Later(Run(config, h), x) == OthersSince(h, x)
  {
    if h.Then? {
      TableIsRecency(config, h.past, x);
      RunIsUnique(config, h.past);
      var t := Run(config, h.past);
      RecencyAfterPut(config, h, t, Spent(Refilled(config, Find(t, h.ip), h.now)), x);
    }
  }

  lemma RecencyAfterPut(config: Config, h: History, t: seq<Entry<string, Bucket>>, b: Bucket, x: string)
    requires Sensible(config) && h.Then? && Unique(t) && |t| <= config.maxIps
    requires x in Keys(t) <==> Remembered(config, h.past, x)
    requires x in Keys(t) ==> Later(t, x) == OthersSince(h.past, x)
    ensures var t' := Evict(Put(t, h.ip, b), config.maxIps);
            && (x in Keys(t') <==> Remembered(config, h, x))
            && (x in Keys(t') ==> Later(t', x) == OthersSince(h, x))
  {
    var p := Put(t, h.ip, b);
    PutFacts(t, h.ip, b);
    EvictForgetsTheOldest(p, config.maxIps, x);
    LaterAfterPut(t, h.ip, b, x);
    if x != h.ip {
      CardinalityGrows(OthersSince(h.past, x), OthersSince(h, x));
    }
  }

  lemma LaterAfterPut<V>(t: seq<Entry<string, V>>, k: string, v: V, x: string)
    ensures Later(Put(t, k, v), x) == if x == k then {} else Later(t, x) - {k} + {k}
  {
    var p := Put(t, k, v);
    assert p[..|p| - 1] == Remove(t, k) && p[|p| - 1].key == k;
    if x != k {
      LaterAfterRemove(t, k, x);
    }
  }

  /** Evicting from a table one over capacity loses exactly the key that `capacity` others follow. */
  lemma EvictForgetsTheOldest<V>(p: seq<Entry<string, V>>, capacity: nat, x: string)
    requires Unique(p) && |p| <= capacity + 1 && capacity >= 1
    ensures x in Keys(Evict(p, capacity)) <==> x in Keys(p) && |Later(p, x)| < capacity
    ensures x in Keys(Evict(p, capacity)) ==> Later(Evict(p, capacity), x) == Later(p, x)
  {
    if x in Keys(p) {
      LaterIsShort(p, x);
    }
    if |p| > capacity {
      assert Evict(p, capacity) == p[1..];
      DropForgetsTheFirst(p, x);
    }
  }

  lemma DropForgetsTheFirst<V>(p: seq<Entry<string, V>>, x: string)
    requires Unique(p) && p != []
    ensures x in Keys(p[1..]) <==> x in Keys(p) && |Later(p, x)| < |p| - 1
    ensures x in Keys(p[1..]) ==> Later(p[1..], x) == Later(p, x)
  {
    LaterAfterDrop(p, x);
    KeysOfFirst(p);
    SizeIsKeys(p[1..]);
    if x in Keys(p[1..]) {
      LaterIsShort(p[1..], x);
    }
  }

  lemma KeysOfFirst<V>(p: seq<Entry<string, V>>)
    requires Unique(p) && p != []
    ensures Keys(p) == {p[0].key} + Keys(p[1..]) && p[0].key !in Keys(p[1..])
  {
    assert p == [p[0]] + p[1..];
    KeysOfConcat([p[0]], p[1..]);
    assert Keys([p[0]]) == {p[0].key} by { assert p[0] in [p[0]]; }
  }

  lemma LaterIsShort<V>(p: seq<Entry<string, V>>, x: string)
    requires Unique(p) && x in Keys(p)
    ensures |Later(p, x)| < |p|
  {
    LaterAreKeys(p, x);
    SizeIsKeys(p);
    CardinalityGrows(Later(p, x), Keys(p) - {x});
  }

  // ---- the exact token bucket ---------------------------------------------------------

  datatype Request = Request(at: real, allowed: bool)

  /** How many of the requests from position `j` on were allowed. */
  function Count(requests: seq<Request>, j: nat): nat
    requires j <= |requests|
  {
    if j == |requests| then 0
    else Count(requests[..|requests| - 1], j) + (if requests[|requests| - 1].allowed then 1 else 0)
  }

  /** The burst plus what refills from window start `j` (one of the requests, or this one) until `now`. */
  function Allowance(config: Config, requests: seq<Request>, j: nat, now: real): real
    requires j <= |requests|
  {
    config.burst + config.refillPerSec * (now - if j < |requests| then requests[j].at else now) / 1000.0
  }

  /** The token-bucket law: in every window the requests allowed so far, and one more, stay within its allowance. */
  predicate Within(config: Config, requests: seq<Request>, now: real) {
    forall j | 0 <= j <= |requests| :: Count(requests, j) as real + 1.0 <= Allowance(config, requests, j, now)
  }

  /** The requests of `ip` since its current bucket was created, each with the law's own verdict. */
  function Epoch(config: Config, h: History, ip: string): seq<Request>
    decreases h, 0
  {
    if h.Start? then []
    else if h.ip != ip then Epoch(config, h.past, ip)
    else
      var before := Current(config, h.past, ip);
      before + [Request(h.now, Within(config, before, h.now))]
  }

  /** The requests the next one of `ip` is judged by: none when its bucket is gone. */
  function Current(config: Config, h: History, ip: string): seq<Request>
    decreases h, 1
  {
    if Remembered(config, h, ip) then Epoch(config, h, ip) else []
  }

  /** What window `j` still allows at `now`. */
  function Room(config: Config, requests: seq<Request>, j: nat, now: real): real
    requires j <= |requests|
  {
    Allowance(config, requests, j, now) - Count(requests, j) as real
  }

  function LastAt(requests: seq<Request>): real
    requires requests != []
  {
    requests[|requests| - 1].at
  }

  /** `x` is the least room over the windows before position `bound`. */
  ghost predicate IsLeastRoom(config: Config, requests: seq<Request>, bound: nat, now: real, x: real)
    requires bound <= |requests| + 1
  {
    && (forall j | 0 <= j < bound :: x <= Room(config, requests, j, now))
    && exists j | 0 <= j < bound :: x == Room(config, requests, j, now)
  }

  /** A bucket that served `requests` holds the least room of their windows, as of the last of them. */
  ghost predicate IsLevel(config: Config, requests: seq<Request>, b: Bucket) {
    && requests != [] && b.lastRefillMs == LastAt(requests)
    && IsLeastRoom(config, requests, |requests|, LastAt(requests), b.tokens)
  }

  /** What a bucket earns is the refill rate times the seconds passed. */
  lemma GainIsRate(config: Config, from: real, to: real)
    ensures Gain(config, from, to) == config.refillPerSec * (to - from) / 1000.0
  {
    Commutes(to - from, config.refillPerSec);
  }

  lemma Commutes(x: real, r: real)
    ensures x / 1000.0 * r == r * x / 1000.0
  {
    assert (x / 1000.0 * r) * 1000.0 == (x / 1000.0 * 1000.0) * r;
  }

  lemma GainAdds(config: Config, a: real, b: real, c: real)
    ensures Gain(config, a, c) == Gain(config, a, b) + Gain(config, b, c)
  {
    assert (c - a) / 1000.0 == (b - a) / 1000.0 + (c - b) / 1000.0;
    Distributes((b - a) / 1000.0, (c - b) / 1000.0, config.refillPerSec);
  }

  lemma Distributes(x: real, y: real, r: real)
    ensures (x + y) * r == x * r + y * r
  {
  }

  /** Time passing adds the same gain to every window's room. */
  lemma RoomLater(config: Config, requests: seq<Request>, j: nat, now: real)
    requires j < |requests|
    ensures Room(config, requests, j, now)
            == Room(config, requests, j, LastAt(requests)) + Gain(config, LastAt(requests), now)
  {
    GainAdds(config, requests[j].at, LastAt(requests), now);
    GainIsRate(config, requests[j].at, now);
    GainIsRate(config, requests[j].at, LastAt(requests));
  }

  lemma RoomNow(config: Config, requests: seq<Request>, now: real)
    ensures Room(config, requests, |requests|, now) == config.burst
  {
    assert now - now == 0.0;
  }

  lemma RoomAfter(config: Config, requests: seq<Request>, r: Request, j: nat)
    requires j <= |requests|
    ensures Room(config, requests + [r], j, r.at) == Room(config, requests, j, r.at) - (if r.allowed then 1.0 else 0.0)
  {
    var all := requests + [r];
    assert all[..|all| - 1] == requests;
  }

  /** Refilling a bucket gives the least room of all windows, this request's own included. */
  lemma RefillIsLeastRoom(config: Config, requests: seq<Request>, b: Option<Bucket>, now: real)
    requires if b.None? then requests == [] else IsLevel(config, requests, b.value)
    ensures IsLeastRoom(config, requests, |requests| + 1, now, Refilled(config, b, now).tokens)
  {
    var n := |requests|;
    RoomNow(config, requests, now);
    forall j | 0 <= j < n
      ensures Room(config, requests, j, now) == Room(config, requests, j, LastAt(requests)) + Gain(config, LastAt(requests), now)
    {
      RoomLater(config, requests, j, now);
    }
    var x := Refilled(config, b, now).tokens;
    if x == config.burst {
      assert x == Room(config, requests, n, now);
    } else {
      var best :| 0 <= best < n && b.value.tokens == Room(config, requests, best, LastAt(requests));
      assert x == Room(config, requests, best, now);
    }
  }

  lemma LeastRoomDecides(config: Config, requests: seq<Request>, now: real, x: real)
    requires IsLeastRoom(config, requests, |requests| + 1, now, x)
    ensures x >= 1.0 <==> Within(config, requests, now)
  {
    var best :| 0 <= best < |requests| + 1 && x == Room(config, requests, best, now);
    if x >= 1.0 {
      forall j | 0 <= j <= |requests| ensures Count(requests, j) as real + 1.0 <= Allowance(config, requests, j, now) {
        assert x <= Room(config, requests, j, now);
      }
    }
  }

  lemma LevelDecides(config: Config, requests: seq<Request>, b: Option<Bucket>, now: real)
    requires if b.None? then requests == [] else IsLevel(config, requests, b.value)
    ensures Refilled(config, b, now).tokens >= 1.0 <==> Within(config, requests, now)
  {
    RefillIsLeastRoom(config, requests, b, now);
    LeastRoomDecides(config, requests, now, Refilled(config, b, now).tokens);
  }

  lemma SpendingKeepsLevel(config: Config, requests: seq<Request>, now: real, b: Bucket)
    requires b.lastRefillMs == now && IsLeastRoom(config, requests, |requests| + 1, now, b.tokens)
    ensures IsLevel(config, requests + [Request(now, b.tokens >= 1.0)], Spent(b))
  {
    var r := Request(now, b.tokens >= 1.0);
    var best :| 0 <= best < |requests| + 1 && b.tokens == Room(config, requests, best, now);
    forall j | 0 <= j < |requests + [r]| ensures Spent(b).tokens <= Room(config, requests + [r], j, now) {
      RoomAfter(config, requests, r, j);
    }
    RoomAfter(config, requests, r, best);
    assert Spent(b).tokens == Room(config, requests + [r], best, now);
  }

  lemma {:induction false} BucketsAreLevels(config: Config, h: History, x: string)
    requires Sensible(config)
    ensures var b := Find(Run(config, h), x);
            if b.None? then Current(config, h, x) == [] else IsLevel(config, Current(config, h, x), b.value)
  {
    TableIsRecency(config, h, x);
    if h.Then? && Find(Run(config, h), x).Some? {
      BucketsAreLevels(config, h.past, x);
      TableIsRecency(config, h.past, x);
      RunIsUnique(config, h.past);
      StepKeepsLevel(config, h, x);
    }
  }

  lemma StepKeepsLevel(config: Config, h: History, x: string)
    requires Sensible(config) && h.Then? && Find(Run(config, h), x).Some? && Remembered(config, h, x)
    requires Unique(Run(config, h.past))
    requires x in Keys(Run(config, h.past)) <==> Remembered(config, h.past, x)
    requires var b := Find(Run(config, h.past), x);
             if b.None? then Current(config, h.past, x) == [] else IsLevel(config, Current(config, h.past, x), b.value)
    ensures IsLevel(config, Epoch(config, h, x), Find(Run(config, h), x).value)
  {
    var t := Run(config, h.past);
    var b := Refilled(config, Find(t, h.ip), h.now);
    FindAfterAllow(config, t, h.ip, h.now, x);
    if h.ip == x {
      var before := Current(config, h.past, x);
      RefillIsLeastRoom(config, before, Find(t, x), h.now);
      LeastRoomDecides(config, before, h.now, b.tokens);
      SpendingKeepsLevel(config, before, h.now, b);
    }
  }

  lemma FindAfterAllow(config: Config, t: seq<Entry<string, Bucket>>, ip: string, now: real, x: string)
    requires Unique(t) && Find(AfterAllow(config, t, ip, now), x).Some?
    ensures Find(AfterAllow(config, t, ip, now), x)
            == if x == ip then Some(Spent(Refilled(config, Find(t, ip), now))) else Find(t, x)
  {
    var b := Spent(Refilled(config, Find(t, ip), now));
    var p := Put(t, ip, b);
    var e := Entry(x, Find(AfterAllow(config, t, ip, now), x).value);
    assert e in p;
    RemoveEntries(t, ip);
    if x != ip {
      UniqueKey(t, e);
    }
  }

  /**
   The exact limiter, whatever the addresses, clocks and evictions: a request is allowed if
   and only if the token-bucket law holds over the requests of its address since its bucket
   was created, and the bucket survives exactly while fewer than `maxIps` other addresses ask.
   */
  lemma ExactTokenBucket(config: Config, h: History, ip: string, now: real)
    requires Sensible(config)
    ensures Decision(config, Run(config, h), ip, now) <==> Within(config, Current(config, h, ip), now)
  {
    BucketsAreLevels(config, h, ip);
    LevelDecides(config, Current(config, h, ip), Find(Run(config, h), ip), now);
  }

  // ---- independent limiters -----------------------------------------------------------

  /** The bucket `ip` would have in a limiter of its own. */
  function Solo(config: Config, h: History, ip: string): Option<Bucket> {
    if h.Start? then None
    else if h.ip == ip then Some(Spent(Refilled(config, Solo(config, h.past, ip), h.now)))
    else Solo(config, h.past, ip)
  }

  function Addresses(h: History): set<string> {
    if h.Start? then {} else Addresses(h.past) + {h.ip}
  }

  lemma {:induction false} OthersAreAddresses(h: History, ip: string)
    ensures OthersSince(h, ip) <= Addresses(h) - {ip}
    ensures Asked(h, ip) <==> ip in Addresses(h)
  {
    if h.Then? {
      OthersAreAddresses(h.past, ip);
    }
  }

  /** With at most `maxIps` distinct addresses, the shared table decides like one limiter per address. */
  lemma {:induction false} SharedIsIndependent(config: Config, h: History, ip: string)
    requires Sensible(config) && |Addresses(h)| <= config.maxIps
    ensures Find(Run(config, h), ip) == Solo(config, h, ip)
    ensures forall now :: Decision(config, Run(config, h), ip, now) <==> Refilled(config, Solo(config, h, ip), now).tokens >= 1.0
  {
    if h.Then? {
      CardinalityGrows(Addresses(h.past), Addresses(h));
      SharedIsIndependent(config, h.past, ip);
      RunIsUnique(config, h.past);
      TableIsRecency(config, h, ip);
      TableIsRecency(config, h.past, ip);
      OthersAreAddresses(h, ip);
      OthersAreAddresses(h.past, ip);
      if ip in Addresses(h) {
        CardinalityGrows(OthersSince(h, ip), Addresses(h) - {ip});
        FindAfterAllow(config, Run(config, h.past), h.ip, h.now, ip);
      }
    }
  }
}
