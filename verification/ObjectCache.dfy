/**
 The registry proxy's in-memory object cache: LRU by Map insertion order, per-entry expiry
 checked lazily, one lifetime for found objects and another for remembered 404s.
 */
module ObjectCache {
  import opened Common
  import opened Lru

  datatype Value = Found(body: string, contentType: string) | NotFound

  datatype Stored = Stored(value: Value, expiresAt: int)

  datatype Config = Config(maxEntries: nat, ttlMs: int, negativeTtlMs: int)

  datatype Cache = Cache(entries: seq<Entry<string, Stored>>, hits: nat, misses: nat)

  /** One call, with the clock reading it sees. */
  datatype Op = Get(key: string, now: int) | Set(key: string, value: Value, now: int)

  function Ttl(config: Config, v: Value): int {
    if v.NotFound? then config.negativeTtlMs else config.ttlMs
  }

  function AfterGet(c: Cache, key: string, now: int): Cache {
    match Find(c.entries, key)
    case None => c.(misses := c.misses + 1)
    case Some(e) =>
      if now >= e.expiresAt then Cache(Remove(c.entries, key), c.hits, c.misses + 1)
      else Cache(Put(c.entries, key, e), c.hits + 1, c.misses)
  }

  function Answer(c: Cache, key: string, now: int): Option<Value> {
    match Find(c.entries, key)
    case None => None
    case Some(e) => if now >= e.expiresAt then None else Some(e.value)
  }

  function AfterSet(config: Config, c: Cache, key: string, value: Value, now: int): Cache {
    c.(entries := Evict(Put(c.entries, key, Stored(value, now + Ttl(config, value))), config.maxEntries))
  }

  function After(config: Config, c: Cache, op: Op): Cache {
    match op
    case Get(key, now) => AfterGet(c, key, now)
    case Set(key, value, now) => AfterSet(config, c, key, value, now)
  }

  /** Every call made so far, the latest outermost. */
  datatype History = Start | Then(past: History, op: Op)

  /** The cache after a whole history of calls, starting empty. */
  function Run(config: Config, h: History): Cache {
    match h
    case Start => Cache([], 0, 0)
    case Then(past, op) => After(config, Run(config, past), op)
  }

  /** The source's object: `entries` in insertion order, updated in place. */
  class Store {
    const config: Config
    var entries: seq<Entry<string, Stored>>
    var hits: nat
    var misses: nat

    ghost predicate Valid()
      reads this
    {
      Unique(entries) && 1 <= config.maxEntries && |entries| <= config.maxEntries
    }

    function Contents(): Cache
      reads this
    {
      Cache(entries, hits, misses)
    }

    constructor (maxEntries: int, ttlMs: int, negativeTtlMs: int)
      ensures Valid() && Contents() == Cache([], 0, 0)
      ensures config == Config(if maxEntries < 1 then 1 else maxEntries, ttlMs, negativeTtlMs)
    {
      config := Config(if maxEntries < 1 then 1 else maxEntries, ttlMs, negativeTtlMs);
      entries, hits, misses := [], 0, 0;
    }

    method Get(key: string, now: int) returns (r: Option<Value>)
      requires Valid()
      modifies this
      ensures Valid()
      ensures Contents() == AfterGet(old(Contents()), key, now) && r == Answer(old(Contents()), key, now)
    {
      var e := Find(entries, key);
      if e.None? {
        misses := misses + 1;
        return None;
      }
      RemoveFacts(entries, key);
      PutFacts(entries, key, e.value);
      if now >= e.value.expiresAt {
        entries := Remove(entries, key);
        misses := misses + 1;
        return None;
      }
      entries := Remove(entries, key);
      entries := entries + [Entry(key, e.value)];
      hits := hits + 1;
      return Some(e.value.value);
    }

    method Set(key: string, value: Value, now: int)
      requires Valid()
      modifies this
      ensures Valid()
      ensures Contents() == AfterSet(config, old(Contents()), key, value, now)
    {
      var ttl := if value.NotFound? then config.negativeTtlMs else config.ttlMs;
      PutFacts(entries, key, Stored(value, now + ttl));
      entries := Remove(entries, key);
      entries := entries + [Entry(key, Stored(value, now + ttl))];
      entries := EvictOldest(entries, config.maxEntries);
    }
  }

  // ---- invariants over every history ------------------------------------------------

  lemma {:induction false} RunIsUnique(config: Config, h: History)
    requires config.maxEntries >= 1
    ensures Unique(Run(config, h).entries) && |Run(config, h).entries| <= config.maxEntries
  {
    if h.Then? {
      RunIsUnique(config, h.past);
      OpKeepsUnique(config, Run(config, h.past), h.op);
    }
  }

  lemma OpKeepsUnique(config: Config, c: Cache, op: Op)
    requires Unique(c.entries) && |c.entries| <= config.maxEntries
    ensures Unique(After(config, c, op).entries) && |After(config, c, op).entries| <= config.maxEntries
  {
    RemoveFacts(c.entries, op.key);
    match op
    case Get(key, now) =>
      if Find(c.entries, key).Some? {
        PutFacts(c.entries, key, Find(c.entries, key).value);
      }
    case Set(key, value, now) =>
      PutFacts(c.entries, key, Stored(value, now + Ttl(config, value)));
  }

  function Gets(h: History): nat {
    if h.Start? then 0 else Gets(h.past) + (if h.op.Get? then 1 else 0)
  }

  /** How many gets of the history were answered. */
  function Answered(config: Config, h: History): nat {
    if h.Start? then 0
    else Answered(config, h.past)
         + (if h.op.Get? && Answer(Run(config, h.past), h.op.key, h.op.now).Some? then 1 else 0)
  }

  lemma {:induction false} CountersAddUp(config: Config, h: History)
    ensures Run(config, h).hits == Answered(config, h)
    ensures Run(config, h).hits + Run(config, h).misses == Gets(h)
  {
    if h.Then? {
      CountersAddUp(config, h.past);
    }
  }

  /** The most recent set of `key`: its value and the clock reading it saw. */
  function LastSet(h: History, key: string): Option<(Value, int)> {
    if h.Start? then None
    else if h.op.Set? && h.op.key == key then Some((h.op.value, h.op.now))
    else LastSet(h.past, key)
  }

  ghost predicate EntrySound(config: Config, h: History, e: Entry<string, Stored>) {
    var s := LastSet(h, e.key);
    s.Some? && e.value == Stored(s.value.0, s.value.1 + Ttl(config, s.value.0))
  }

  lemma {:induction false} EntriesAreLastSets(config: Config, h: History)
    requires config.maxEntries >= 1
    ensures forall e <- Run(config, h).entries :: EntrySound(config, h, e)
  {
    if h.Then? {
      EntriesAreLastSets(config, h.past);
      RunIsUnique(config, h.past);
      var c := Run(config, h.past);
      RemoveEntries(c.entries, h.op.key);
      forall e <- Run(config, h).entries ensures EntrySound(config, h, e) {
        if e in c.entries && e.key != h.op.key {
          assert EntrySound(config, h.past, e);
        }
      }
    }
  }

  /** A hit returns the value of the latest set of that key, and only before the end of that value's own lifetime. */
  lemma HitsAreSound(config: Config, h: History, key: string, now: int)
    requires config.maxEntries >= 1
    requires Answer(Run(config, h), key, now).Some?
    ensures var s := LastSet(h, key);
            && s.Some?
            && Answer(Run(config, h), key, now) == Some(s.value.0)
            && now < s.value.1 + (if s.value.0.NotFound? then config.negativeTtlMs else config.ttlMs)
  {
    EntriesAreLastSets(config, h);
    var e := Entry(key, Find(Run(config, h).entries, key).value);
    assert EntrySound(config, h, e);
  }

  // ---- retention --------------------------------------------------------------------

  /** Did this call make its key the most recent one? */
  predicate Touches(c: Cache, op: Op) {
    op.Set? || Answer(c, op.key, op.now).Some?
  }

  /** The other keys set or hit since `key` was last set or hit. */
  function OthersTouched(config: Config, h: History, key: string): set<string> {
    if h.Start? then {}
    else if !Touches(Run(config, h.past), h.op) then OthersTouched(config, h.past, key)
    else if h.op.key == key then {}
    else OthersTouched(config, h.past, key) + {h.op.key}
  }

  /** Since its last set, has a get of `key` seen it expired? */
  predicate SeenExpired(config: Config, h: History, key: string) {
    if h.Start? then false
    else if h.op.key != key then SeenExpired(config, h.past, key)
    else if h.op.Set? then false
    else
      || SeenExpired(config, h.past, key)
      || (var s := LastSet(h.past, key); s.Some? && h.op.now >= s.value.1 + (if s.value.0.NotFound? then config.negativeTtlMs else config.ttlMs))
  }

  /** In `t`, every key more recent than another was touched since that other was. */
  ghost predicate LaterAreTouched(config: Config, h: History, t: seq<Entry<string, Stored>>) {
    forall i, j | 0 <= i < j < |t| :: t[j].key in OthersTouched(config, h, t[i].key)
  }

  lemma LaterAfterRemove(config: Config, h: History)
    requires h.Then? && Unique(Run(config, h.past).entries)
    requires LaterAreTouched(config, h.past, Run(config, h.past).entries)
    ensures LaterAreTouched(config, h, Remove(Run(config, h.past).entries, h.op.key))
  {
    var t := Run(config, h.past).entries;
    var r := Remove(t, h.op.key);
    RemoveEntries(t, h.op.key);
    forall i, j | 0 <= i < j < |r| ensures r[j].key in OthersTouched(config, h, r[i].key) {
      RemoveKeepsOrder(t, h.op.key, i, j);
      assert r[i] in r;
    }
  }

  lemma LaterAfterPut(config: Config, h: History, v: Stored)
    requires h.Then? && Unique(Run(config, h.past).entries) && Touches(Run(config, h.past), h.op)
    requires LaterAreTouched(config, h.past, Run(config, h.past).entries)
    ensures LaterAreTouched(config, h, Put(Run(config, h.past).entries, h.op.key, v))
  {
    LaterAfterRemove(config, h);
    var t := Run(config, h.past).entries;
    RemoveEntries(t, h.op.key);
    var r := Remove(t, h.op.key);
    forall i | 0 <= i < |r| ensures h.op.key in OthersTouched(config, h, r[i].key) {
      assert r[i] in r && r[i].key != h.op.key;
    }
  }

  lemma LaterAfterGet(config: Config, h: History)
    requires h.Then? && h.op.Get? && Unique(Run(config, h.past).entries)
    requires LaterAreTouched(config, h.past, Run(config, h.past).entries)
    ensures LaterAreTouched(config, h, Run(config, h).entries)
  {
    var e := Find(Run(config, h.past).entries, h.op.key);
    if e.Some? && h.op.now < e.value.expiresAt {
      LaterAfterPut(config, h, e.value);
    } else if e.Some? {
      LaterAfterRemove(config, h);
    }
  }

  lemma LaterAfterEvict(config: Config, h: History, t: seq<Entry<string, Stored>>, capacity: nat)
    requires LaterAreTouched(config, h, t)
    ensures LaterAreTouched(config, h, Evict(t, capacity))
  {
    var r := Evict(t, capacity);
    var gone := |t| - |r|;
    forall i, j | 0 <= i < j < |r| ensures r[j].key in OthersTouched(config, h, r[i].key) {
      assert r[i] == t[gone + i] && r[j] == t[gone + j];
    }
  }

  lemma LaterAfterSet(config: Config, h: History)
    requires h.Then? && h.op.Set? && config.maxEntries >= 1 && Unique(Run(config, h.past).entries)
    requires LaterAreTouched(config, h.past, Run(config, h.past).entries)
    ensures LaterAreTouched(config, h, Run(config, h).entries)
  {
    var v := Stored(h.op.value, h.op.now + Ttl(config, h.op.value));
    LaterAfterPut(config, h, v);
    LaterAfterEvict(config, h, Put(Run(config, h.past).entries, h.op.key, v), config.maxEntries);
  }

  lemma {:induction false} LaterKeysWereTouched(config: Config, h: History)
    requires config.maxEntries >= 1
    ensures LaterAreTouched(config, h, Run(config, h).entries)
  {
    if h.Then? {
      LaterKeysWereTouched(config, h.past);
      RunIsUnique(config, h.past);
      match h.op
      case Get(_, _) => LaterAfterGet(config, h);
      case Set(_, _, _) => LaterAfterSet(config, h);
    }
  }

  /**
   A key whose value has not been seen expired stays until at least `maxEntries` distinct
   other keys have been set or hit since its own last set or hit.
   */
  lemma {:induction false} Retention(config: Config, h: History, key: string)
    requires config.maxEntries >= 1
    requires LastSet(h, key).Some? && !SeenExpired(config, h, key)
    requires |OthersTouched(config, h, key)| < config.maxEntries
    ensures key in Keys(Run(config, h).entries)
    decreases h, 1
  {
    RunIsUnique(config, h.past);
    if h.op.key != key {
      OtherKeyKeeps(config, h, key);
    } else if h.op.Set? {
      var p := Put(Run(config, h.past).entries, key, Stored(h.op.value, h.op.now + Ttl(config, h.op.value)));
      var t := Evict(p, config.maxEntries);
      assert t[|t| - 1] == p[|p| - 1] && p[|p| - 1].key == key;
    } else {
      OwnGetKeeps(config, h, key);
    }
  }

  /** And such a key is a hit with the value last set, for as long as that kind of value lives. */
  lemma LiveKeyHits(config: Config, h: History, key: string, now: int)
    requires config.maxEntries >= 1
    requires LastSet(h, key).Some? && !SeenExpired(config, h, key)
    requires |OthersTouched(config, h, key)| < config.maxEntries
    ensures var (value, at) := LastSet(h, key).value;
            Answer(Run(config, h), key, now) ==
            if now < at + (if value.NotFound? then config.negativeTtlMs else config.ttlMs) then Some(value) else None
  {
    Retention(config, h, key);
    EntriesAreLastSets(config, h);
    assert EntrySound(config, h, Entry(key, Find(Run(config, h).entries, key).value));
  }

  lemma OwnGetKeeps(config: Config, h: History, key: string)
    requires config.maxEntries >= 1 && h.Then? && h.op.Get? && h.op.key == key
    requires LastSet(h, key).Some? && !SeenExpired(config, h, key)
    requires |OthersTouched(config, h, key)| < config.maxEntries
    ensures key in Keys(Run(config, h).entries)
    decreases h, 0
  {
    var c := Run(config, h.past);
    RunIsUnique(config, h.past);
    if key !in Keys(c.entries) {
      Retention(config, h.past, key);
    }
    EntriesAreLastSets(config, h.past);
    assert EntrySound(config, h.past, Entry(key, Find(c.entries, key).value));
    PutFacts(c.entries, key, Find(c.entries, key).value);
  }

  lemma OtherKeyKeeps(config: Config, h: History, key: string)
    requires config.maxEntries >= 1 && h.Then? && h.op.key != key
    requires LastSet(h, key).Some? && !SeenExpired(config, h, key)
    requires |OthersTouched(config, h, key)| < config.maxEntries
    ensures key in Keys(Run(config, h).entries)
    decreases h, 0
  {
    var c := Run(config, h.past);
    CardinalityGrows(OthersTouched(config, h.past, key), OthersTouched(config, h, key));
    Retention(config, h.past, key);
    match h.op
    case Get(k, now) =>
      RunIsUnique(config, h.past);
      OtherGetKeeps(c, key, k, now);
    case Set(k, value, now) => OtherSetKeeps(config, h, key, Stored(value, now + Ttl(config, value)));
  }

  lemma OtherGetKeeps(c: Cache, key: string, k: string, now: int)
    requires Unique(c.entries) && key in Keys(c.entries) && k != key
    ensures key in Keys(AfterGet(c, k, now).entries)
  {
    RemoveFacts(c.entries, k);
    if Find(c.entries, k).Some? {
      PutFacts(c.entries, k, Find(c.entries, k).value);
    }
  }

  lemma OtherSetKeeps(config: Config, h: History, key: string, v: Stored)
    requires config.maxEntries >= 1 && h.Then? && h.op.Set? && h.op.key != key
    requires key in Keys(Run(config, h.past).entries)
    requires |OthersTouched(config, h, key)| < config.maxEntries
    ensures key in Keys(Evict(Put(Run(config, h.past).entries, h.op.key, v), config.maxEntries))
  {
    RunIsUnique(config, h.past);
    PutFacts(Run(config, h.past).entries, h.op.key, v);
    LaterKeysWereTouched(config, h.past);
    LaterAfterPut(config, h, v);
    SurvivesSet(config, h, Put(Run(config, h.past).entries, h.op.key, v), key);
  }

  lemma SurvivesSet(config: Config, h: History, t: seq<Entry<string, Stored>>, key: string)
    requires Unique(t) && key in Keys(t) && LaterAreTouched(config, h, t)
    requires |OthersTouched(config, h, key)| < config.maxEntries
    ensures key in Keys(Evict(t, config.maxEntries))
  {
    SurvivesEviction(t, config.maxEntries, key, OthersTouched(config, h, key));
  }

  // ---- inclusion --------------------------------------------------------------------

  /** `small` is a subsequence of `large` in recency order, and lags it by at most the difference in capacity. */
  ghost predicate Included(small: seq<Entry<string, Stored>>, large: seq<Entry<string, Stored>>, gap: int) {
    && Unique(small) && Unique(large)
    && small == Keep(large, Keys(small))
    && |large| - |small| <= gap
  }

  lemma IncludedFind(small: seq<Entry<string, Stored>>, large: seq<Entry<string, Stored>>, gap: int, key: string)
    requires Included(small, large, gap) && Find(small, key).Some?
    ensures Find(large, key) == Find(small, key)
  {
    KeepFacts(large, Keys(small));
    UniqueKey(large, Entry(key, Find(small, key).value));
  }

  lemma IncludedAfterRemove(small: seq<Entry<string, Stored>>, large: seq<Entry<string, Stored>>, gap: int, key: string)
    requires Included(small, large, gap)
    ensures Included(Remove(small, key), Remove(large, key), gap)
  {
    RemoveFacts(small, key);
    RemoveFacts(large, key);
    KeepRemove(large, key, Keys(small));
    KeepRemove(large, key, Keys(small) - {key});
    assert Keys(small) - {key} - {key} == Keys(small) - {key};
    if Find(small, key).Some? {
      IncludedFind(small, large, gap, key);
    }
  }

  lemma IncludedAfterPut(small: seq<Entry<string, Stored>>, large: seq<Entry<string, Stored>>, gap: int, key: string, v: Stored)
    requires Included(small, large, gap)
    ensures Included(Put(small, key, v), Put(large, key, v), gap)
  {
    PutFacts(small, key, v);
    PutFacts(large, key, v);
    if Find(small, key).Some? {
      IncludedFind(small, large, gap, key);
    }
    KeepAfterPut(small, large, key, v);
  }

  lemma KeepAfterPut(small: seq<Entry<string, Stored>>, large: seq<Entry<string, Stored>>, key: string, v: Stored)
    requires small == Keep(large, Keys(small))
    ensures Put(small, key, v) == Keep(Put(large, key, v), Keys(small) + {key})
  {
    var ks, e := Keys(small) + {key}, [Entry(key, v)];
    KeepConcat(Remove(large, key), e, ks);
    assert Keep(e, ks) == e;
    KeepRemove(large, key, ks);
    KeepRemove(large, key, Keys(small));
    assert ks - {key} == Keys(small) - {key};
  }

  lemma IncludedAfterEvict(small: seq<Entry<string, Stored>>, large: seq<Entry<string, Stored>>, m: nat, n: nat)
    requires m <= n && |small| <= m + 1 && |large| <= n + 1
    requires Included(small, large, n - m)
    ensures Included(Evict(small, m), Evict(large, n), n - m)
  {
    if |small| > m {
      assert Evict(small, m) == small[1..];
      KeepTail(small, large);
      if |large| > n {
        assert Evict(large, n) == large[1..];
      }
    }
  }

  lemma IncludedAfterSet(small: seq<Entry<string, Stored>>, large: seq<Entry<string, Stored>>, m: nat, n: nat, key: string, v: Stored)
    requires m <= n && |small| <= m && |large| <= n && Included(small, large, n - m)
    ensures Included(Evict(Put(small, key, v), m), Evict(Put(large, key, v), n), n - m)
  {
    PutFacts(small, key, v);
    PutFacts(large, key, v);
    IncludedAfterPut(small, large, n - m, key, v);
    IncludedAfterEvict(Put(small, key, v), Put(large, key, v), m, n);
  }

  lemma IncludedAfterGet(small: Cache, large: Cache, gap: int, key: string, now: int)
    requires Included(small.entries, large.entries, gap)
    ensures Included(AfterGet(small, key, now).entries, AfterGet(large, key, now).entries, gap)
    ensures Answer(small, key, now).Some? ==> Answer(large, key, now) == Answer(small, key, now)
  {
    var s, l := small.entries, large.entries;
    RemoveFacts(l, key);
    if Find(s, key).Some? {
      IncludedFind(s, l, gap, key);
      IncludedAfterRemove(s, l, gap, key);
      IncludedAfterPut(s, l, gap, key, Find(s, key).value);
    } else if Find(l, key).Some? {
      assert Keys(s) - {key} == Keys(s);
      KeepRemove(l, key, Keys(s));
      var e := Find(l, key).value;
      PutFacts(l, key, e);
      KeepConcat(Remove(l, key), [Entry(key, e)], Keys(s));
      assert Keep([Entry(key, e)], Keys(s)) == [];
    }
  }

  lemma IncludedAfterOp(small: Config, large: Config, s: Cache, l: Cache, op: Op)
    requires small.maxEntries <= large.maxEntries
    requires small.ttlMs == large.ttlMs && small.negativeTtlMs == large.negativeTtlMs
    requires |s.entries| <= small.maxEntries && |l.entries| <= large.maxEntries
    requires Included(s.entries, l.entries, large.maxEntries - small.maxEntries)
    ensures Included(After(small, s, op).entries, After(large, l, op).entries, large.maxEntries - small.maxEntries)
  {
    match op
    case Get(key, now) => IncludedAfterGet(s, l, large.maxEntries - small.maxEntries, key, now);
    case Set(key, value, now) => IncludedAfterSets(small, large, s, l, key, value, now);
  }

  lemma IncludedAfterSets(small: Config, large: Config, s: Cache, l: Cache, key: string, value: Value, now: int)
    requires small.maxEntries <= large.maxEntries
    requires small.ttlMs == large.ttlMs && small.negativeTtlMs == large.negativeTtlMs
    requires |s.entries| <= small.maxEntries && |l.entries| <= large.maxEntries
    requires Included(s.entries, l.entries, large.maxEntries - small.maxEntries)
    ensures Included(AfterSet(small, s, key, value, now).entries, AfterSet(large, l, key, value, now).entries, large.maxEntries - small.maxEntries)
  {
    var v := Stored(value, now + Ttl(small, value));
    assert v == Stored(value, now + Ttl(large, value));
    IncludedAfterSet(s.entries, l.entries, small.maxEntries, large.maxEntries, key, v);
  }

  /**
   LRU inclusion: fed the same calls and clock readings, a cache of smaller capacity holds a
   subsequence, in recency order, of what the larger one holds.
   */
  lemma {:induction false} InclusionOverTime(small: Config, large: Config, h: History)
    requires 1 <= small.maxEntries <= large.maxEntries
    requires small.ttlMs == large.ttlMs && small.negativeTtlMs == large.negativeTtlMs
    ensures Included(Run(small, h).entries, Run(large, h).entries, large.maxEntries - small.maxEntries)
  {
    if h.Then? {
      InclusionOverTime(small, large, h.past);
      RunIsUnique(small, h.past);
      RunIsUnique(large, h.past);
      IncludedAfterOp(small, large, Run(small, h.past), Run(large, h.past), h.op);
    }
  }

  /** So a bigger cache never loses a hit, nor answers it differently. */
  lemma BiggerCacheHitsMore(small: Config, large: Config, h: History, key: string, now: int)
    requires 1 <= small.maxEntries <= large.maxEntries
    requires small.ttlMs == large.ttlMs && small.negativeTtlMs == large.negativeTtlMs
    ensures Answer(Run(small, h), key, now).Some? ==>
              Answer(Run(large, h), key, now) == Answer(Run(small, h), key, now)
  {
    InclusionOverTime(small, large, h);
    IncludedAfterGet(Run(small, h), Run(large, h), large.maxEntries - small.maxEntries, key, now);
  }
}
