/** What the tiered cache serves, and from where: which tier answers a lookup, what a deletion and a
    lifetime mean over whole runs, and what the hit counters count. */
module TieredCacheService {
  import opened Optional
  import opened TieredCache
  import opened TieredCacheRuns

  // ------------------------------------------------------------- which tier serves

  /** A lookup of this key is answered from RAM, or from disk. */
  predicate InRam(cfg: Config, t: Tiers, k: string, env: Env) {
    cfg.l0 && k in t.l0 && env.now <= t.l0[k].expiresAt
  }

  predicate OnDisk(cfg: Config, t: Tiers, k: string, env: Env) {
    && cfg.l1 && env.read.NoFault? && k in t.data && k in t.meta
    && t.meta[k].Expires? && env.now <= t.meta[k].at
  }

  /** The first tier that has the value serves it: RAM, disk, the loader, the fallback, in this order,
      each with its own value; only when none has it is the lookup a miss. */
  lemma FirstTierServes(cfg: Config, c: Cache, key: string, env: Env)
    requires key != ""
    ensures
      var k, r := PrefixKey(cfg, key), GetSpec(cfg, c, key, env).1;
      if InRam(cfg, c.tiers, k, env) then r == GetResult(Some(c.tiers.l0[k].value), L0)
      else if OnDisk(cfg, c.tiers, k, env) then r == GetResult(Some(c.tiers.data[k]), L1)
      else if cfg.loader && env.loader.Found? then r == GetResult(Some(env.loader.value), L2)
      else if cfg.fallback && env.fallback.Found? then r == GetResult(Some(env.fallback.value), Fallback)
      else r == GetResult(None, Miss)
  {
  }

  /** The empty key is never looked up, stored or deleted. */
  lemma EmptyKeyDoesNothing(cfg: Config, c: Cache, value: Option<Bytes>, ttl: int, env: Env)
    ensures GetSpec(cfg, c, "", env) == (c, GetResult(None, Miss))
    ensures SetSpec(cfg, c.tiers, "", value, ttl, env) == c.tiers == DeleteSpec(cfg, c.tiers, "")
  {
  }

  /** GetOrLoad returns what Get returns or, on a miss, what the loader returns, if there is one. */
  lemma GetOrLoadReturns(cfg: Config, c: Cache, key: string, custom: bool, env: Env, load: Reply, env': Env)
    ensures
      var got := GetSpec(cfg, c, key, env).1.data;
      GetOrLoadSpec(cfg, c, key, custom, env, load, env').1 ==
        if got.Some? then got
        else if (custom || cfg.loader) && load.Found? then Some(load.value)
        else None
  {
  }

  /** And then the value it loaded is in RAM and on disk, with the default lifetimes. */
  lemma LoadedIsStored(cfg: Config, c: Cache, key: string, env: Env, load: Reply, env': Env)
    requires ValidConfig(cfg) && key != "" && GetSpec(cfg, c, key, env).1.data.None? && load.Found?
    ensures
      var k, t := PrefixKey(cfg, key), GetOrLoadSpec(cfg, c, key, true, env, load, env').0.tiers;
      && (cfg.l0 && env'.admit ==> k in t.l0 && t.l0[k] == L0Entry(load.value, env'.now + cfg.l0TTL))
      && (cfg.l1 && env'.write.Written? ==>
            k in t.data && t.data[k] == load.value && k in t.meta && t.meta[k] == Expires(env'.now + cfg.l1TTL))
  {
  }

  /** A value from the loader or the fallback is kept the same way. */
  lemma ServedRemotelyIsStored(cfg: Config, c: Cache, key: string, env: Env)
    requires ValidConfig(cfg) && key != ""
    requires var r := GetSpec(cfg, c, key, env).1; r.tier.L2? || r.tier.Fallback?
    ensures
      var k, (c', r) := PrefixKey(cfg, key), GetSpec(cfg, c, key, env);
      var t := c'.tiers;
      && r.data.Some?
      && (cfg.l0 && env.admit ==> k in t.l0 && t.l0[k] == L0Entry(r.data.value, env.now + cfg.l0TTL))
      && (cfg.l1 && env.write.Written? ==>
            k in t.data && t.data[k] == r.data.value && k in t.meta && t.meta[k] == Expires(env.now + cfg.l1TTL))
  {
    GetServed(cfg, c, key, env);
  }

  /** Keys of caches with different prefixes never meet, the prefixes being free of the separator. */
  lemma PrefixesSeparate(a: Config, b: Config, x: string, y: string)
    requires a.keyPrefix != "" && b.keyPrefix != "" && ':' !in a.keyPrefix && ':' !in b.keyPrefix
    requires PrefixKey(a, x) == PrefixKey(b, y)
    ensures a.keyPrefix == b.keyPrefix && x == y
  {
    var p, q := a.keyPrefix, b.keyPrefix;
    var k := PrefixKey(a, x);
    assert k[|p|] == ':' && k[|q|] == ':';
    assert k[..|p|] == p && k[..|q|] == q && k[|p| + 1..] == x && k[|q| + 1..] == y;
  }

  // ---------------------------------------------------------------------- deletion

  predicate IsGone(cfg: Config, t: Tiers, k: string) {
    (cfg.l0 ==> k !in t.l0) && (cfg.l1 ==> k !in t.data && k !in t.meta)
  }

  /** No value was stored for this key from entry n of the log on. */
  predicate NotStoredSince(w: World, k: string, n: nat) {
    forall i :: n <= i < |w.history.log| ==> w.history.log[i].k != k
  }

  lemma LogOnlyGrows(cfg: Config, w: World, op: Op)
    ensures w.history.log <= Apply(cfg, w, op).history.log
  {
  }

  lemma GoneThroughGet(cfg: Config, w: World, key: string, env: Env, k: string)
    requires key != "" && IsGone(cfg, w.cache.tiers, k)
    requires NotStoredSince(GetWorld(cfg, w, key, env), k, |w.history.log|)
    ensures IsGone(cfg, GetWorld(cfg, w, key, env).cache.tiers, k)
  {
    GetServed(cfg, w.cache, key, env);
    if k != PrefixKey(cfg, key) {
      GetTouchesOneKey(cfg, w.cache, key, env, k);
    } else {
      FirstTierServes(cfg, w.cache, key, env);
      var r := GetSpec(cfg, w.cache, key, env).1;
      if r.tier.L2? || r.tier.Fallback? {
        assert GetWorld(cfg, w, key, env).history.log[|w.history.log|].k == k;
      }
    }
  }

  lemma GoneThroughApply(cfg: Config, w: World, op: Op, k: string)
    requires IsGone(cfg, w.cache.tiers, k) && NotStoredSince(Apply(cfg, w, op), k, |w.history.log|)
    ensures IsGone(cfg, Apply(cfg, w, op).cache.tiers, k)
  {
    match op
    case DoGet(key, env) =>
      if key != "" {
        GoneThroughGet(cfg, w, key, env, k);
      }
    case DoSet(key, value, ttl, env) =>
      if key != "" && value.Some? {
        GoneThroughSet(cfg, w, key, value.value, ttl, env, k);
      }
    case DoLoad(key, bytes, env) =>
      if key != "" {
        GoneThroughSet(cfg, w, key, bytes, 0, env, k);
      }
    case _ =>
  }

  lemma GoneThroughSet(cfg: Config, w: World, key: string, value: Bytes, ttl: int, env: Env, k: string)
    requires key != "" && IsGone(cfg, w.cache.tiers, k)
    requires NotStoredSince(SetWorld(cfg, w, key, value, ttl, env), k, |w.history.log|)
    ensures IsGone(cfg, SetWorld(cfg, w, key, value, ttl, env).cache.tiers, k)
  {
    assert SetWorld(cfg, w, key, value, ttl, env).history.log[|w.history.log|].k == PrefixKey(cfg, key);
  }

  lemma {:induction false} GoneThroughRun(cfg: Config, w: World, ops: seq<Op>, k: string)
    requires Possible(cfg, w, ops) && IsGone(cfg, w.cache.tiers, k)
    requires NotStoredSince(After(cfg, w, ops), k, |w.history.log|)
    ensures IsGone(cfg, After(cfg, w, ops).cache.tiers, k) && w.history.log <= After(cfg, w, ops).history.log
  {
    if ops == [] {
    } else {
      var front, op := ops[..|ops| - 1], ops[|ops| - 1];
      var mid := After(cfg, w, front);
      LogOnlyGrows(cfg, mid, op);
      LogGrowsThroughRun(cfg, w, front);
      GoneThroughRun(cfg, w, front, k);
      GoneThroughApply(cfg, mid, op, k);
    }
  }

  lemma {:induction false} LogGrowsThroughRun(cfg: Config, w: World, ops: seq<Op>)
    requires Possible(cfg, w, ops)
    ensures w.history.log <= After(cfg, w, ops).history.log
  {
    if ops == [] {
    } else {
      LogGrowsThroughRun(cfg, w, ops[..|ops| - 1]);
      LogOnlyGrows(cfg, After(cfg, w, ops[..|ops| - 1]), ops[|ops| - 1]);
    }
  }

  /** In every run: after a Delete, and until a value is stored for the key again, no Get serves it
      from RAM or disk. */
  lemma DeletedIsNotServed(cfg: Config, w: World, key: string, now: int, ops: seq<Op>, env: Env)
    requires key != "" && Possible(cfg, Apply(cfg, w, DoDelete(key, now)), ops)
    requires
      var deleted := Apply(cfg, w, DoDelete(key, now));
      NotStoredSince(After(cfg, deleted, ops), PrefixKey(cfg, key), |deleted.history.log|)
    ensures
      var w' := After(cfg, Apply(cfg, w, DoDelete(key, now)), ops);
      var r := GetSpec(cfg, w'.cache, key, env).1;
      !r.tier.L0? && !r.tier.L1?
  {
    var deleted := Apply(cfg, w, DoDelete(key, now));
    GoneThroughRun(cfg, deleted, ops, PrefixKey(cfg, key));
    FirstTierServes(cfg, After(cfg, deleted, ops).cache, key, env);
  }

  // -------------------------------------------------------------- served from RAM

  /** RAM holds this value for the key until expiry. */
  predicate RamHolds(t: Tiers, k: string, v: Bytes, expiry: int) {
    k in t.l0 && t.l0[k] == L0Entry(v, expiry)
  }

  /** Anything but storing, deleting or evicting this key. */
  predicate KeepsInRam(cfg: Config, key: string, op: Op) {
    match op
    case DoGet(_, _) => true
    case DoSet(other, _, _, _) => other != key
    case DoLoad(other, _, _) => other != key
    case DoDelete(other, _) => other != key
    case Evict(k, _) => k != PrefixKey(cfg, key)
    case Garble(_, _) => true
  }

  lemma PopulateKeepsRam(cfg: Config, t: Tiers, k: string, value: Bytes, l0TTL: int, l1TTL: int, env: Env, j: string)
    requires j != k && j in t.l0
    ensures var t' := Populate(cfg, t, k, value, l0TTL, l1TTL, env); j in t'.l0 && t'.l0[j] == t.l0[j]
  {
  }

  lemma RamHoldsThroughGet(cfg: Config, w: World, key: string, v: Bytes, expiry: int, other: string, env: Env)
    requires cfg.l0 && key != "" && other != "" && RamHolds(w.cache.tiers, PrefixKey(cfg, key), v, expiry)
    requires env.now <= expiry
    ensures RamHolds(GetSpec(cfg, w.cache, other, env).0.tiers, PrefixKey(cfg, key), v, expiry)
  {
    var k, r := PrefixKey(cfg, other), GetSpec(cfg, w.cache, other, env).1;
    GetServed(cfg, w.cache, other, env);
    if other != key {
      PrefixIsInjective(cfg, key, other);
      if r.tier.L2? || r.tier.Fallback? {
        var swept := Swept(cfg, w.cache.tiers, k, env);
        assert swept.l0 == w.cache.tiers.l0;
        PopulateKeepsRam(cfg, swept, k, r.data.value, cfg.l0TTL, cfg.l1TTL, env, PrefixKey(cfg, key));
      }
    }
  }

  lemma RamHoldsThroughApply(cfg: Config, w: World, key: string, v: Bytes, expiry: int, op: Op)
    requires cfg.l0 && key != "" && RamHolds(w.cache.tiers, PrefixKey(cfg, key), v, expiry)
    requires KeepsInRam(cfg, key, op) && TimeOf(op) <= expiry
    ensures RamHolds(Apply(cfg, w, op).cache.tiers, PrefixKey(cfg, key), v, expiry)
  {
    match op
    case DoGet(other, env) =>
      if other != "" {
        RamHoldsThroughGet(cfg, w, key, v, expiry, other, env);
      }
    case DoSet(other, value, ttl, env) =>
      PrefixIsInjective(cfg, key, other);
      if other != "" && value.Some? {
        PopulateKeepsRam(cfg, w.cache.tiers, PrefixKey(cfg, other), value.value, LifeOf(cfg.l0TTL, ttl),
                         LifeOf(cfg.l1TTL, ttl), env, PrefixKey(cfg, key));
      }
    case DoLoad(other, bytes, env) =>
      PrefixIsInjective(cfg, key, other);
      if other != "" {
        var at, kept := PrefixKey(cfg, other), PrefixKey(cfg, key);
        PopulateKeepsRam(cfg, w.cache.tiers, at, bytes, cfg.l0TTL, cfg.l1TTL, env, kept);
      }
    case DoDelete(other, _) => PrefixIsInjective(cfg, key, other);
    case _ =>
  }

  lemma {:induction false} RamHoldsThroughRun(cfg: Config, w: World, key: string, v: Bytes, expiry: int, ops: seq<Op>)
    requires cfg.l0 && key != "" && RamHolds(w.cache.tiers, PrefixKey(cfg, key), v, expiry)
    requires Possible(cfg, w, ops)
    requires forall i :: 0 <= i < |ops| ==> KeepsInRam(cfg, key, ops[i]) && TimeOf(ops[i]) <= expiry
    ensures RamHolds(After(cfg, w, ops).cache.tiers, PrefixKey(cfg, key), v, expiry)
  {
    if ops == [] {
    } else {
      var front := ops[..|ops| - 1];
      RamHoldsThroughRun(cfg, w, key, v, expiry, front);
      RamHoldsThroughApply(cfg, After(cfg, w, front), key, v, expiry, ops[|ops| - 1]);
    }
  }

  /** After a Set that RAM admits, and until it is evicted, deleted or stored anew, Get serves exactly
      that value from RAM for the lifetime asked for, or the default one, whatever the disk does. */
  lemma ServedFromRam(cfg: Config, w: World, key: string, v: Bytes, ttl: int, env: Env, ops: seq<Op>, last: Env)
    requires ValidConfig(cfg) && cfg.l0 && key != "" && ttl >= 0 && env.admit
    requires Possible(cfg, Apply(cfg, w, DoSet(key, Some(v), ttl, env)), ops)
    requires
      var expiry := env.now + if ttl == 0 then cfg.l0TTL else ttl;
      && (forall i :: 0 <= i < |ops| ==> KeepsInRam(cfg, key, ops[i]) && TimeOf(ops[i]) <= expiry)
      && last.now <= expiry
    ensures
      var w' := After(cfg, Apply(cfg, w, DoSet(key, Some(v), ttl, env)), ops);
      GetSpec(cfg, w'.cache, key, last).1 == GetResult(Some(v), L0)
  {
    var start, expiry := Apply(cfg, w, DoSet(key, Some(v), ttl, env)), env.now + if ttl == 0 then cfg.l0TTL else ttl;
    RamHoldsThroughRun(cfg, start, key, v, expiry, ops);
    FirstTierServes(cfg, After(cfg, start, ops).cache, key, last);
  }

  /** A value read from disk is served from RAM from then on, with the default lifetime. */
  lemma DiskHitIsPromoted(cfg: Config, c: Cache, key: string, env: Env)
    requires cfg.l0 && ValidConfig(cfg) && key != "" && env.admit && GetSpec(cfg, c, key, env).1.tier.L1?
    ensures
      var (c', r) := GetSpec(cfg, c, key, env);
      r.data.Some? && RamHolds(c'.tiers, PrefixKey(cfg, key), r.data.value, env.now + cfg.l0TTL)
  {
    GetServed(cfg, c, key, env);
  }

  // ----------------------------------------------------------------- files on disk

  /** A lookup that comes to the disk finds files that are of no use: their expiry has passed or cannot
      be understood, or the data are missing. */
  predicate FindsJunk(cfg: Config, t: Tiers, k: string, env: Env) {
    && cfg.l1 && !InRam(cfg, t, k, env) && !env.read.MetaUnreadable? && k in t.meta
    && (t.meta[k].Garbled? || env.now > t.meta[k].at || (!env.read.DataUnreadable? && k !in t.data))
  }

  /** A miss removes exactly such files, with their size, and leaves everything else as it was. */
  lemma MissRemovesOnlyJunk(cfg: Config, c: Cache, key: string, env: Env)
    requires key != "" && GetSpec(cfg, c, key, env).1.tier.Miss?
    ensures
      var k, t, t' := PrefixKey(cfg, key), c.tiers, GetSpec(cfg, c, key, env).0.tiers;
      if FindsJunk(cfg, t, k, env)
      then t' == Tiers(t.l0, t.data - {k}, t.meta - {k}, t.l1Size - if k in t.data then |t.data[k]| else 0)
      else t' == t
  {
    GetServed(cfg, c, key, env);
  }

  /** The expiry counter counts the lookups that come to the disk and find the expiry passed. */
  lemma ExpiriesAreCounted(cfg: Config, c: Cache, key: string, env: Env)
    requires key != ""
    ensures
      var k, t, c' := PrefixKey(cfg, key), c.tiers, GetSpec(cfg, c, key, env).0;
      var expired := FindsJunk(cfg, t, k, env) && t.meta[k].Expires? && env.now > t.meta[k].at;
      c'.counters.lazyExpired == c.counters.lazyExpired + if expired then 1 else 0
  {
  }

  // ---------------------------------------------------------------------- counters

  function Times(served: seq<Tier>, tier: Tier): nat {
    if served == [] then 0
    else Times(served[..|served| - 1], tier) + if served[|served| - 1] == tier then 1 else 0
  }

  lemma TimesSnoc(served: seq<Tier>, last: Tier, tier: Tier)
    ensures Times(served + [last], tier) == Times(served, tier) + if last == tier then 1 else 0
  {
    assert (served + [last])[..|served|] == served;
  }

  /** One more hit of this tier, and of no other. */
  predicate OneMoreHit(n: Counters, n': Counters, tier: Tier) {
    && n'.l0Hits == n.l0Hits + (if tier.L0? then 1 else 0)
    && n'.l1Hits == n.l1Hits + (if tier.L1? then 1 else 0)
    && n'.l2Hits == n.l2Hits + (if tier.L2? then 1 else 0)
    && n'.fallbackHits == n.fallbackHits + (if tier.Fallback? then 1 else 0)
  }

  /** A lookup adds one to the hits of the tier that serves it, and to no other. */
  lemma HitIsCounted(cfg: Config, c: Cache, key: string, env: Env)
    requires key != ""
    ensures var (c', r) := GetSpec(cfg, c, key, env); OneMoreHit(c.counters, c'.counters, r.tier)
  {
  }

  predicate HitsMatch(n: Counters, served: seq<Tier>, loads: nat) {
    && n.l0Hits == Times(served, L0) && n.l1Hits == Times(served, L1)
    && n.l2Hits == Times(served, L2) + loads && n.fallbackHits == Times(served, Fallback)
  }

  lemma HitsMatchAfter(n: Counters, n': Counters, served: seq<Tier>, tier: Tier, loads: nat)
    requires HitsMatch(n, served, loads) && OneMoreHit(n, n', tier)
    ensures HitsMatch(n', served + [tier], loads)
  {
    TimesSnoc(served, tier, L0);
    TimesSnoc(served, tier, L1);
    TimesSnoc(served, tier, L2);
    TimesSnoc(served, tier, Fallback);
  }

  predicate HitsAreServed(w: World) {
    HitsMatch(w.cache.counters, w.served, w.loads) && |w.served| == w.gets
  }

  lemma HitsThroughApply(cfg: Config, w: World, op: Op)
    requires HitsAreServed(w)
    ensures HitsAreServed(Apply(cfg, w, op))
  {
    var w' := Apply(cfg, w, op);
    if op.DoGet? && op.key != "" {
      var tier := GetSpec(cfg, w.cache, op.key, op.env).1.tier;
      assert w'.served == w.served + [tier] && w'.gets == w.gets + 1 && w'.loads == w.loads;
      assert w'.cache == GetSpec(cfg, w.cache, op.key, op.env).0;
      HitIsCounted(cfg, w.cache, op.key, op.env);
      HitsMatchAfter(w.cache.counters, w'.cache.counters, w.served, tier, w.loads);
    } else {
      OtherOpsCountLoads(cfg, w, op);
      assert w'.served == w.served;
    }
  }

  /** In every run the hit counters are the numbers of Gets that each tier served, the loads of
      GetOrLoad added to those of L2. */
  lemma {:induction false} EveryRunCountsHits(cfg: Config, ops: seq<Op>)
    requires Possible(cfg, EMPTY, ops)
    ensures HitsAreServed(After(cfg, EMPTY, ops))
  {
    if ops == [] {
    } else {
      EveryRunCountsHits(cfg, ops[..|ops| - 1]);
      HitsThroughApply(cfg, After(cfg, EMPTY, ops[..|ops| - 1]), ops[|ops| - 1]);
    }
  }
}
