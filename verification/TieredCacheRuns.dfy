/** What holds of the tiered cache over whole runs: staleness bounds, agreement of the local
    tiers, and the bookkeeping of hits, misses and disk bytes. */
module TieredCacheRuns {
  import opened Optional
  import opened TieredCache

  /** A value entering the cache from outside, with the lifetimes it was given. */
  datatype Stored = Stored(k: string, value: Bytes, at: int, l0TTL: int, l1TTL: int)

  /** Every value stored, and which of them each local entry came from. */
  datatype History = History(log: seq<Stored>, from0: map<string, nat>, from1: map<string, nat>)

  /** A cache with its history and running totals. */
  datatype World = World(
    cache: Cache, clock: int, history: History,
    gets: nat, loads: nat,
    served: seq<Tier>,  // the tier that served each Get
    overwritten: nat,   // bytes of data files replaced or removed by a write
    reliable: bool)     // no write has failed before reaching its data file

  const EMPTY: World := World(Cache(NO_TIERS, NO_COUNTERS), 0, History([], map[], map[]), 0, 0, [], 0, true)

  datatype Op =
    | DoGet(key: string, env: Env)
    | DoSet(key: string, value: Option<Bytes>, ttl: int, env: Env)
    | DoLoad(key: string, bytes: Bytes, env: Env)
    | DoDelete(key: string, now: int)
    | Evict(k: string, now: int)
    | Garble(k: string, now: int)

  function TimeOf(op: Op): int {
    match op
    case DoGet(_, env) => env.now
    case DoSet(_, _, _, env) => env.now
    case DoLoad(_, _, env) => env.now
    case DoDelete(_, now) => now
    case Evict(_, now) => now
    case Garble(_, now) => now
  }

  /** The tiers once the disk lookup of a Get has cleaned up what it found unusable. */
  function Swept(cfg: Config, t: Tiers, k: string, env: Env): Tiers {
    if !cfg.l1 || (cfg.l0 && L0Live(t, k, env.now)) then t else Sweep(t, k, env)
  }

  function Remember(cfg: Config, h: History, k: string, value: Bytes, l0TTL: int, l1TTL: int, env: Env): History {
    var n := |h.log|;
    History(h.log + [Stored(k, value, env.now, l0TTL, l1TTL)],
            if cfg.l0 && l0TTL >= 0 then h.from0[k := n] else h.from0,
            if cfg.l1 && env.write.Written? then h.from1[k := n] else h.from1)
  }

  /** Bytes of the data file that a write to k replaces or removes. */
  function Replaced(cfg: Config, t: Tiers, k: string, env: Env): nat {
    if cfg.l1 && (env.write.Written? || env.write.MetaFailed?) && k in t.data then |t.data[k]| else 0
  }

  predicate WriteReachesData(cfg: Config, env: Env) {
    cfg.l1 ==> env.write.Written? || env.write.MetaFailed?
  }

  function GetWorld(cfg: Config, w: World, key: string, env: Env): World {
    var k := PrefixKey(cfg, key);
    var (c', r) := GetSpec(cfg, w.cache, key, env);
    var w' := w.(cache := c', clock := env.now, gets := w.gets + 1, served := w.served + [r.tier]);
    if r.tier.L1? then
      if cfg.l0 && k in w.history.from1
      then w'.(history := w.history.(from0 := w.history.from0[k := w.history.from1[k]]))
      else w'
    else if (r.tier.L2? || r.tier.Fallback?) && r.data.Some? then
      w'.(history := Remember(cfg, w.history, k, r.data.value, cfg.l0TTL, cfg.l1TTL, env),
          overwritten := w.overwritten + Replaced(cfg, Swept(cfg, w.cache.tiers, k, env), k, env),
          reliable := w.reliable && WriteReachesData(cfg, env))
    else w'
  }

  /** The lifetime a value is given: the one asked for, or the default when that is zero. */
  function LifeOf(default: int, ttl: int): int {
    if ttl == 0 then default else ttl
  }

  function SetWorld(cfg: Config, w: World, key: string, value: Bytes, ttl: int, env: Env): World {
    var k := PrefixKey(cfg, key);
    w.(cache := w.cache.(tiers := SetSpec(cfg, w.cache.tiers, key, Some(value), ttl, env)),
       clock := env.now,
       history := Remember(cfg, w.history, k, value, LifeOf(cfg.l0TTL, ttl), LifeOf(cfg.l1TTL, ttl), env),
       overwritten := w.overwritten + Replaced(cfg, w.cache.tiers, k, env),
       reliable := w.reliable && WriteReachesData(cfg, env))
  }

  /** One operation of the cache, or an eviction from L0, or damage to a metadata file. */
  function Apply(cfg: Config, w: World, op: Op): World {
    match op
    case DoGet(key, env) => if key == "" then w.(clock := env.now) else GetWorld(cfg, w, key, env)
    case DoSet(key, value, ttl, env) =>
      if key == "" || value.None? then w.(clock := env.now) else SetWorld(cfg, w, key, value.value, ttl, env)
    case DoLoad(key, bytes, env) =>
      var w' := if key == "" then w.(clock := env.now) else SetWorld(cfg, w, key, bytes, 0, env);
      w'.(cache := LoadSpec(cfg, w.cache, key, bytes, env), loads := w.loads + 1)
    case DoDelete(key, now) => w.(cache := w.cache.(tiers := DeleteSpec(cfg, w.cache.tiers, key)), clock := now)
    case Evict(k, now) =>
      w.(cache := w.cache.(tiers := w.cache.tiers.(l0 := w.cache.tiers.l0 - {k})), clock := now)
    case Garble(k, now) =>
      if k !in w.cache.tiers.meta then w.(clock := now)
      else w.(cache := w.cache.(tiers := w.cache.tiers.(meta := w.cache.tiers.meta[k := Garbled])), clock := now)
  }

  /** Time does not run backwards. */
  predicate Possible(cfg: Config, w: World, ops: seq<Op>)
    decreases |ops|, 0
  {
    ops == [] ||
    var front := ops[..|ops| - 1];
    Possible(cfg, w, front) && TimeOf(ops[|ops| - 1]) >= After(cfg, w, front).clock
  }

  function After(cfg: Config, w: World, ops: seq<Op>): World
    requires Possible(cfg, w, ops)
    decreases |ops|, 1
  {
    if ops == [] then w else Apply(cfg, After(cfg, w, ops[..|ops| - 1]), ops[|ops| - 1])
  }

  lemma Extend(cfg: Config, w: World, ops: seq<Op>, op: Op)
    requires Possible(cfg, w, ops) && TimeOf(op) >= After(cfg, w, ops).clock
    ensures Possible(cfg, w, ops + [op]) && After(cfg, w, ops + [op]) == Apply(cfg, After(cfg, w, ops), op)
  {
    assert (ops + [op])[..|ops|] == ops;
  }

  /** Warmup is a Get for each key in turn, */
  function WarmupOps(keys: seq<string>, envs: seq<Env>): seq<Op>
    requires |envs| == |keys|
  {
    if keys == [] then []
    else
      var n := |keys| - 1;
      WarmupOps(keys[..n], envs[..n]) + [DoGet(keys[n], envs[n])]
  }

  /** The time after these surroundings, in which no clock reading goes back. */
  function LastTime(start: int, envs: seq<Env>): int {
    if envs == [] then start else envs[|envs| - 1].now
  }

  predicate InOrder(start: int, envs: seq<Env>) {
    envs == [] ||
    var n := |envs| - 1;
    InOrder(start, envs[..n]) && LastTime(start, envs[..n]) <= envs[n].now
  }

  /** so what holds of every run holds of a run with warmups. */
  lemma {:induction false} WarmupIsRun(cfg: Config, w: World, keys: seq<string>, envs: seq<Env>)
    requires |envs| == |keys| && InOrder(w.clock, envs)
    ensures Possible(cfg, w, WarmupOps(keys, envs))
    ensures
      var w' := After(cfg, w, WarmupOps(keys, envs));
      w'.cache == WarmupSpec(cfg, w.cache, keys, envs) && w'.clock == LastTime(w.clock, envs)
  {
    if keys == [] {
    } else {
      var n := |keys| - 1;
      WarmupIsRun(cfg, w, keys[..n], envs[..n]);
      Extend(cfg, w, WarmupOps(keys[..n], envs[..n]), DoGet(keys[n], envs[n]));
      GetIsApplied(cfg, After(cfg, w, WarmupOps(keys[..n], envs[..n])), keys[n], envs[n]);
    }
  }

  lemma GetIsApplied(cfg: Config, w: World, key: string, env: Env)
    ensures
      var w' := Apply(cfg, w, DoGet(key, env));
      w'.cache == GetSpec(cfg, w.cache, key, env).0 && w'.clock == env.now
  {
  }

  /** The run that a GetOrLoad makes: a Get and, on a miss that the loader can fill, a load. */
  function GetOrLoadOps(cfg: Config, w: World, key: string, custom: bool, env: Env, load: Reply, env': Env): seq<Op> {
    var missed := GetSpec(cfg, w.cache, key, env).1.data.None?;
    if missed && (custom || cfg.loader) && load.Found? then [DoGet(key, env)] + [DoLoad(key, load.value, env')]
    else [DoGet(key, env)]
  }

  lemma GetOrLoadIsRun(cfg: Config, w: World, key: string, custom: bool, env: Env, load: Reply, env': Env)
    requires w.clock <= env.now <= env'.now
    ensures
      var ops := GetOrLoadOps(cfg, w, key, custom, env, load, env');
      Possible(cfg, w, ops) && After(cfg, w, ops).cache == GetOrLoadSpec(cfg, w.cache, key, custom, env, load, env').0
  {
    var get := DoGet(key, env);
    Extend(cfg, w, [], get);
    assert [] + [get] == [get];
    GetIsApplied(cfg, w, key, env);
    if load.Found? {
      Extend(cfg, w, [get], DoLoad(key, load.value, env'));
    }
  }

  // ----------------------------------------------------------- what a Get does

  /** The effect of a lookup on the tiers, by the tier that served it. */
  predicate Served(cfg: Config, t: Tiers, swept: Tiers, k: string, env: Env, t': Tiers, r: GetResult) {
    match r.tier
    case L0 => t' == t && cfg.l0 && L0Live(t, k, env.now) && r.data == Some(t.l0[k].value)
    case L1 =>
      && cfg.l1 && env.read.NoFault? && L1Live(t, k, env.now) && r.data == Some(t.data[k])
      && t' == SetL0(cfg, t, k, t.data[k], cfg.l0TTL, env)
    case Miss => t' == swept && r.data.None?
    case _ => r.data.Some? && t' == Populate(cfg, swept, k, r.data.value, cfg.l0TTL, cfg.l1TTL, env)
  }

  lemma GetServed(cfg: Config, c: Cache, key: string, env: Env)
    requires key != ""
    ensures
      var k := PrefixKey(cfg, key);
      var (c', r) := GetSpec(cfg, c, key, env);
      Served(cfg, c.tiers, Swept(cfg, c.tiers, k, env), k, env, c'.tiers, r)
    ensures
      var k := PrefixKey(cfg, key);
      var r := GetSpec(cfg, c, key, env).1;
      && (cfg.l0 && L0Live(c.tiers, k, env.now) ==> r.tier.L0?)
      && (cfg.l1 && env.read.NoFault? && L1Live(c.tiers, k, env.now) ==> r.tier.L0? || r.tier.L1?)
  {
  }

  // ----------------------------------------------------------------- staleness

  function Max(a: int, b: int): int {
    if a >= b then a else b
  }

  /** How long after it was stored a value may still be served from a local tier. */
  function Bound(cfg: Config, s: Stored): int {
    Max(s.l0TTL, s.l1TTL + cfg.l0TTL)
  }

  /** The L0 entry for k is a stored value and dies within its bound. */
  predicate L0From(cfg: Config, t: Tiers, h: History, k: string)
    requires k in t.l0
  {
    && k in h.from0 && h.from0[k] < |h.log|
    && var s := h.log[h.from0[k]];
    s.k == k && s.value == t.l0[k].value && t.l0[k].expiresAt <= s.at + Bound(cfg, s)
  }

  /** The L1 files for k, when both are there, are those of one stored value. */
  predicate L1From(t: Tiers, h: History, k: string)
    requires k in t.data
  {
    k in t.meta && t.meta[k].Expires? ==>
      && k in h.from1 && h.from1[k] < |h.log|
      && var s := h.log[h.from1[k]];
      s.k == k && s.value == t.data[k] && t.meta[k].at == s.at + s.l1TTL
  }

  predicate Traced(cfg: Config, t: Tiers, h: History) {
    && (forall k :: k in t.l0 ==> L0From(cfg, t, h, k))
    && (forall k :: k in t.data ==> L1From(t, h, k))
  }

  /** Dropping entries or garbling metadata traces nothing new. */
  predicate Shrinks(t: Tiers, t': Tiers) {
    && (forall k :: k in t'.l0 ==> k in t.l0 && t'.l0[k] == t.l0[k])
    && (forall k :: k in t'.data ==> k in t.data && t'.data[k] == t.data[k])
    && (forall k :: k in t'.meta && t'.meta[k].Expires? ==> k in t.meta && t'.meta[k] == t.meta[k])
  }

  lemma TracedShrink(cfg: Config, t: Tiers, t': Tiers, h: History)
    requires Traced(cfg, t, h) && Shrinks(t, t')
    ensures Traced(cfg, t', h)
  {
  }

  /** Promotion restarts the L0 clock but not the age of the value. */
  lemma TracedPromote(cfg: Config, t: Tiers, h: History, k: string, env: Env)
    requires cfg.l0 && ValidConfig(cfg) && Traced(cfg, t, h) && L1Live(t, k, env.now)
    ensures k in h.from1
    ensures Traced(cfg, SetL0(cfg, t, k, t.data[k], cfg.l0TTL, env), h.(from0 := h.from0[k := h.from1[k]]))
  {
    assert L1From(t, h, k);
    var t' := SetL0(cfg, t, k, t.data[k], cfg.l0TTL, env);
    var h' := h.(from0 := h.from0[k := h.from1[k]]);
    forall j | j in t'.l0 ensures L0From(cfg, t', h', j) {
      if j != k {
        assert L0From(cfg, t, h, j);
      }
    }
    forall j | j in t'.data ensures L1From(t', h', j) {
      assert L1From(t, h, j);
    }
  }

  lemma L0FromPopulate(cfg: Config, t: Tiers, h: History, k: string, value: Bytes, l0TTL: int, l1TTL: int, env: Env,
                       j: string)
    requires j in t.l0 ==> L0From(cfg, t, h, j)
    ensures
      var t' := Populate(cfg, t, k, value, l0TTL, l1TTL, env);
      j in t'.l0 ==> L0From(cfg, t', Remember(cfg, h, k, value, l0TTL, l1TTL, env), j)
  {
  }

  lemma L1FromPopulate(cfg: Config, t: Tiers, h: History, k: string, value: Bytes, l0TTL: int, l1TTL: int, env: Env,
                       j: string)
    requires j in t.data ==> L1From(t, h, j)
    ensures
      var t' := Populate(cfg, t, k, value, l0TTL, l1TTL, env);
      j in t'.data ==> L1From(t', Remember(cfg, h, k, value, l0TTL, l1TTL, env), j)
  {
  }

  /** A value stored from outside is traced to its own log entry. */
  lemma TracedPopulate(cfg: Config, t: Tiers, h: History, k: string, value: Bytes, l0TTL: int, l1TTL: int, env: Env)
    requires Traced(cfg, t, h)
    ensures Traced(cfg, Populate(cfg, t, k, value, l0TTL, l1TTL, env), Remember(cfg, h, k, value, l0TTL, l1TTL, env))
  {
    var t' := Populate(cfg, t, k, value, l0TTL, l1TTL, env);
    var h' := Remember(cfg, h, k, value, l0TTL, l1TTL, env);
    forall j | j in t'.l0 ensures L0From(cfg, t', h', j) {
      L0FromPopulate(cfg, t, h, k, value, l0TTL, l1TTL, env, j);
    }
    forall j | j in t'.data ensures L1From(t', h', j) {
      L1FromPopulate(cfg, t, h, k, value, l0TTL, l1TTL, env, j);
    }
  }

  ghost predicate TracedWorld(cfg: Config, w: World) {
    Traced(cfg, w.cache.tiers, w.history)
  }

  lemma TracedGet(cfg: Config, w: World, key: string, env: Env)
    requires key != "" && ValidConfig(cfg) && TracedWorld(cfg, w)
    ensures TracedWorld(cfg, GetWorld(cfg, w, key, env))
  {
    var t, k := w.cache.tiers, PrefixKey(cfg, key);
    var r := GetSpec(cfg, w.cache, key, env).1;
    GetServed(cfg, w.cache, key, env);
    var swept := Swept(cfg, t, k, env);
    assert Shrinks(t, swept);
    TracedShrink(cfg, t, swept, w.history);
    if r.tier.L1? && cfg.l0 {
      TracedPromote(cfg, t, w.history, k, env);
    } else if r.tier.L2? || r.tier.Fallback? {
      TracedPopulate(cfg, swept, w.history, k, r.data.value, cfg.l0TTL, cfg.l1TTL, env);
    }
  }

  lemma TracedApply(cfg: Config, w: World, op: Op)
    requires ValidConfig(cfg) && TracedWorld(cfg, w)
    ensures TracedWorld(cfg, Apply(cfg, w, op))
  {
    var t := w.cache.tiers;
    match op
    case DoGet(key, env) =>
      if key != "" { TracedGet(cfg, w, key, env); }
    case DoSet(key, value, ttl, env) =>
      if key != "" && value.Some? {
        TracedPopulate(cfg, t, w.history, PrefixKey(cfg, key), value.value, L0TTLFor(cfg, ttl), L1TTLFor(cfg, ttl),
                       env);
      }
    case DoLoad(key, bytes, env) =>
      if key != "" {
        TracedPopulate(cfg, t, w.history, PrefixKey(cfg, key), bytes, cfg.l0TTL, cfg.l1TTL, env);
      }
    case DoDelete(key, now) => TracedShrink(cfg, t, DeleteSpec(cfg, t, key), w.history);
    case Evict(k, now) => TracedShrink(cfg, t, t.(l0 := t.l0 - {k}), w.history);
    case Garble(k, now) => TracedShrink(cfg, t, t.(meta := t.meta[k := Garbled]), w.history);
  }

  lemma {:induction false} EveryRunIsTraced(cfg: Config, ops: seq<Op>)
    requires ValidConfig(cfg) && Possible(cfg, EMPTY, ops)
    ensures TracedWorld(cfg, After(cfg, EMPTY, ops))
  {
    if ops == [] {
    } else {
      var front := ops[..|ops| - 1];
      EveryRunIsTraced(cfg, front);
      TracedApply(cfg, After(cfg, EMPTY, front), ops[|ops| - 1]);
    }
  }

  /** Staleness bound: in every run, a value a Get serves from L0 or L1 was stored for that very
      key, and no longer ago than the larger of its L0 lifetime and its L1 lifetime plus the
      default L0 lifetime. */
  lemma ServedIsFresh(cfg: Config, ops: seq<Op>, key: string, env: Env)
    requires ValidConfig(cfg) && Possible(cfg, EMPTY, ops) && key != ""
    ensures
      var w := After(cfg, EMPTY, ops);
      var log := w.history.log;
      var r := GetSpec(cfg, w.cache, key, env).1;
      r.tier.L0? || r.tier.L1? ==>
        exists i :: 0 <= i < |log|
                    && log[i].k == PrefixKey(cfg, key) && r.data == Some(log[i].value)
                    && env.now - log[i].at <= Bound(cfg, log[i])
  {
    EveryRunIsTraced(cfg, ops);
    var w := After(cfg, EMPTY, ops);
    var t, h, k := w.cache.tiers, w.history, PrefixKey(cfg, key);
    var r := GetSpec(cfg, w.cache, key, env).1;
    GetServed(cfg, w.cache, key, env);
    if r.tier.L0? {
      assert L0From(cfg, t, h, k);
      assert h.log[h.from0[k]].k == k;
    } else if r.tier.L1? {
      assert L1From(t, h, k);
      assert h.log[h.from1[k]].k == k;
    }
  }

  // ----------------------------------------------------------------- coherence

  /** A key live in both local tiers has the same bytes in both. */
  ghost predicate Coherent(t: Tiers, now: int) {
    forall k :: L0Live(t, k, now) && L1Live(t, k, now) ==> t.l0[k].value == t.data[k]
  }

  lemma CoherentLater(t: Tiers, t': Tiers, clock: int, now: int)
    requires Coherent(t, clock) && now >= clock && Shrinks(t, t')
    ensures Coherent(t', now)
  {
  }

  lemma CoherentPopulate(cfg: Config, t: Tiers, k: string, value: Bytes, l0TTL: int, l1TTL: int, env: Env)
    requires cfg.l0 && cfg.l1 && WriteReachesData(cfg, env) && (l0TTL < 0 ==> l1TTL < 0)
    requires Coherent(t, env.now)
    ensures Coherent(Populate(cfg, t, k, value, l0TTL, l1TTL, env), env.now)
  {
  }

  lemma CoherentPromote(cfg: Config, t: Tiers, k: string, env: Env)
    requires cfg.l0 && ValidConfig(cfg) && Coherent(t, env.now) && k in t.data
    ensures Coherent(SetL0(cfg, t, k, t.data[k], cfg.l0TTL, env), env.now)
  {
  }

  lemma CoherentGet(cfg: Config, w: World, key: string, env: Env)
    requires key != "" && ValidConfig(cfg) && cfg.l0 && cfg.l1 && env.now >= w.clock && Coherent(w.cache.tiers, w.clock)
    requires GetWorld(cfg, w, key, env).reliable
    ensures Coherent(GetWorld(cfg, w, key, env).cache.tiers, env.now)
  {
    var t, k, r := w.cache.tiers, PrefixKey(cfg, key), GetSpec(cfg, w.cache, key, env).1;
    var swept := Swept(cfg, t, k, env);
    GetServed(cfg, w.cache, key, env);
    CoherentLater(t, t, w.clock, env.now);
    CoherentLater(t, swept, w.clock, env.now);
    if r.tier.L1? {
      CoherentPromote(cfg, t, k, env);
    } else if r.tier.L2? || r.tier.Fallback? {
      CoherentPopulate(cfg, swept, k, r.data.value, cfg.l0TTL, cfg.l1TTL, env);
    }
  }

  lemma CoherentSet(cfg: Config, w: World, key: string, value: Bytes, ttl: int, env: Env)
    requires ValidConfig(cfg) && cfg.l0 && cfg.l1 && env.now >= w.clock && Coherent(w.cache.tiers, w.clock)
    requires key != "" && SetWorld(cfg, w, key, value, ttl, env).reliable
    ensures Coherent(SetWorld(cfg, w, key, value, ttl, env).cache.tiers, env.now)
  {
    var t := w.cache.tiers;
    CoherentLater(t, t, w.clock, env.now);
    CoherentPopulate(cfg, t, PrefixKey(cfg, key), value, L0TTLFor(cfg, ttl), L1TTLFor(cfg, ttl), env);
  }

  lemma CoherentApply(cfg: Config, w: World, op: Op)
    requires ValidConfig(cfg) && cfg.l0 && cfg.l1 && TimeOf(op) >= w.clock
    requires Coherent(w.cache.tiers, w.clock) && Apply(cfg, w, op).reliable
    ensures Coherent(Apply(cfg, w, op).cache.tiers, Apply(cfg, w, op).clock)
  {
    var w' := Apply(cfg, w, op);
    match op
    case DoGet(key, env) =>
      if key != "" {
        CoherentGet(cfg, w, key, env);
      } else {
        CoherentLater(w.cache.tiers, w'.cache.tiers, w.clock, w'.clock);
      }
    case DoSet(key, value, ttl, env) =>
      if key != "" && value.Some? {
        CoherentSet(cfg, w, key, value.value, ttl, env);
      } else {
        CoherentLater(w.cache.tiers, w'.cache.tiers, w.clock, w'.clock);
      }
    case DoLoad(key, bytes, env) =>
      if key != "" {
        CoherentSet(cfg, w, key, bytes, 0, env);
      } else {
        CoherentLater(w.cache.tiers, w'.cache.tiers, w.clock, w'.clock);
      }
    case DoDelete(key, now) => CoherentLater(w.cache.tiers, w'.cache.tiers, w.clock, w'.clock);
    case Evict(k, now) => CoherentLater(w.cache.tiers, w'.cache.tiers, w.clock, w'.clock);
    case Garble(k, now) => CoherentLater(w.cache.tiers, w'.cache.tiers, w.clock, w'.clock);
  }

  lemma ReliableBefore(cfg: Config, w: World, op: Op)
    ensures Apply(cfg, w, op).reliable ==> w.reliable
  {
  }

  /** While no write fails before its data file, the two local tiers agree in every reachable
      state; a failed metadata write does not break this. */
  lemma {:induction false} TiersAgree(cfg: Config, ops: seq<Op>)
    requires ValidConfig(cfg) && cfg.l0 && cfg.l1 && Possible(cfg, EMPTY, ops) && After(cfg, EMPTY, ops).reliable
    ensures Coherent(After(cfg, EMPTY, ops).cache.tiers, After(cfg, EMPTY, ops).clock)
  {
    if ops == [] {
    } else {
      var front := ops[..|ops| - 1];
      var w := After(cfg, EMPTY, front);
      ReliableBefore(cfg, w, ops[|ops| - 1]);
      TiersAgree(cfg, front);
      CoherentApply(cfg, w, ops[|ops| - 1]);
    }
  }

  /** The condition is needed: a Set whose write fails before the data file keeps the tiers in
      agreement exactly when L0 refuses the value too, or no other live value is on disk. */
  lemma FailedWriteKeepsAgreementIff(cfg: Config, w: World, key: string, value: Bytes, ttl: int, env: Env)
    requires ValidConfig(cfg) && cfg.l0 && cfg.l1 && ttl >= 0
    requires env.now >= w.clock && Coherent(w.cache.tiers, w.clock)
    requires env.write.DirFailed? || env.write.DataFailed?
    ensures
      var t, k := w.cache.tiers, PrefixKey(cfg, key);
      Coherent(SetWorld(cfg, w, key, value, ttl, env).cache.tiers, env.now) <==>
      !(key != "" && env.admit && L1Live(t, k, env.now) && t.data[k] != value)
  {
  }

  // ------------------------------------------------------------- read your write

  /** L1 holds v for k until expiry, and L0, if in use, holds nothing else for it. */
  predicate Holds(cfg: Config, t: Tiers, k: string, v: Bytes, expiry: int) {
    && k in t.data && t.data[k] == v
    && k in t.meta && t.meta[k] == Expires(expiry)
    && (cfg.l0 && k in t.l0 ==> t.l0[k].value == v)
  }

  /** Nothing about k differs. */
  predicate Untouched(t: Tiers, t': Tiers, k: string) {
    && (k in t'.l0 ==> k in t.l0 && t'.l0[k] == t.l0[k])
    && (k in t.data <==> k in t'.data) && (k in t.data ==> t'.data[k] == t.data[k])
    && (k in t.meta <==> k in t'.meta) && (k in t.meta ==> t'.meta[k] == t.meta[k])
  }

  /** Anything but storing, deleting or damaging this key; its own Gets read without fault. */
  predicate LeavesAlone(cfg: Config, key: string, op: Op) {
    match op
    case DoGet(other, env) => other == key ==> env.read.NoFault?
    case DoSet(other, _, _, _) => other != key
    case DoLoad(other, _, _) => other != key
    case DoDelete(other, _) => other != key
    case Evict(_, _) => true
    case Garble(k, _) => k != PrefixKey(cfg, key)
  }

  lemma PrefixIsInjective(cfg: Config, a: string, b: string)
    requires a != b
    ensures PrefixKey(cfg, a) != PrefixKey(cfg, b)
  {
    var n := |cfg.keyPrefix| + 1;
    assert cfg.keyPrefix != "" ==> PrefixKey(cfg, a)[n..] == a && PrefixKey(cfg, b)[n..] == b;
  }

  lemma PopulateTouchesOneKey(cfg: Config, t: Tiers, k: string, value: Bytes, l0TTL: int, l1TTL: int, env: Env,
                              j: string)
    requires j != k
    ensures Untouched(t, Populate(cfg, t, k, value, l0TTL, l1TTL, env), j)
  {
  }

  lemma GetTouchesOneKey(cfg: Config, c: Cache, other: string, env: Env, k: string)
    requires other != "" && k != PrefixKey(cfg, other)
    ensures Untouched(c.tiers, GetSpec(cfg, c, other, env).0.tiers, k)
  {
    GetServed(cfg, c, other, env);
    var k', r := PrefixKey(cfg, other), GetSpec(cfg, c, other, env).1;
    var swept := Swept(cfg, c.tiers, k', env);
    assert Untouched(c.tiers, swept, k);
    if r.tier.L2? || r.tier.Fallback? {
      PopulateTouchesOneKey(cfg, swept, k', r.data.value, cfg.l0TTL, cfg.l1TTL, env, k);
    }
  }

  lemma HoldsThroughOwnGet(cfg: Config, c: Cache, key: string, v: Bytes, expiry: int, env: Env)
    requires cfg.l1 && key != "" && Holds(cfg, c.tiers, PrefixKey(cfg, key), v, expiry)
    requires env.now <= expiry && env.read.NoFault?
    ensures Holds(cfg, GetSpec(cfg, c, key, env).0.tiers, PrefixKey(cfg, key), v, expiry)
    ensures var r := GetSpec(cfg, c, key, env).1; r.data == Some(v) && (r.tier.L0? || r.tier.L1?)
  {
  }

  lemma HoldsApply(cfg: Config, w: World, key: string, v: Bytes, expiry: int, op: Op)
    requires cfg.l1 && key != "" && Holds(cfg, w.cache.tiers, PrefixKey(cfg, key), v, expiry)
    requires LeavesAlone(cfg, key, op) && TimeOf(op) <= expiry
    ensures Holds(cfg, Apply(cfg, w, op).cache.tiers, PrefixKey(cfg, key), v, expiry)
  {
    var t, t', k := w.cache.tiers, Apply(cfg, w, op).cache.tiers, PrefixKey(cfg, key);
    if op.DoGet? && op.key == key {
      HoldsThroughOwnGet(cfg, w.cache, key, v, expiry, op.env);
    } else {
      assert Untouched(t, t', k) by { OpTouchesOneKey(cfg, w, key, op); }
    }
  }

  lemma OpTouchesOneKey(cfg: Config, w: World, key: string, op: Op)
    requires LeavesAlone(cfg, key, op) && (op.DoGet? ==> op.key != key)
    ensures Untouched(w.cache.tiers, Apply(cfg, w, op).cache.tiers, PrefixKey(cfg, key))
  {
    var t, k := w.cache.tiers, PrefixKey(cfg, key);
    match op
    case DoGet(other, env) =>
      PrefixIsInjective(cfg, key, other);
      if other != "" { GetTouchesOneKey(cfg, w.cache, other, env, k); }
    case DoSet(other, value, ttl, env) =>
      PrefixIsInjective(cfg, key, other);
      if other != "" && value.Some? {
        PopulateTouchesOneKey(cfg, t, PrefixKey(cfg, other), value.value, L0TTLFor(cfg, ttl), L1TTLFor(cfg, ttl),
                              env, k);
      }
    case DoLoad(other, bytes, env) =>
      PrefixIsInjective(cfg, key, other);
      if other != "" {
        PopulateTouchesOneKey(cfg, t, PrefixKey(cfg, other), bytes, cfg.l0TTL, cfg.l1TTL, env, k);
      }
    case DoDelete(other, _) => PrefixIsInjective(cfg, key, other);
    case Evict(_, _) =>
    case Garble(_, _) =>
  }

  lemma {:induction false} HoldsThroughRun(cfg: Config, w: World, key: string, v: Bytes, expiry: int, ops: seq<Op>)
    requires cfg.l1 && key != "" && Holds(cfg, w.cache.tiers, PrefixKey(cfg, key), v, expiry)
    requires Possible(cfg, w, ops)
    requires forall i :: 0 <= i < |ops| ==> LeavesAlone(cfg, key, ops[i]) && TimeOf(ops[i]) <= expiry
    ensures Holds(cfg, After(cfg, w, ops).cache.tiers, PrefixKey(cfg, key), v, expiry)
  {
    if ops == [] {
    } else {
      var front := ops[..|ops| - 1];
      HoldsThroughRun(cfg, w, key, v, expiry, front);
      HoldsApply(cfg, After(cfg, w, front), key, v, expiry, ops[|ops| - 1]);
    }
  }

  /** After a Set whose files were written, any mix of evictions, Gets and operations on other
      keys, whatever fails there, leaves Get returning exactly that value from a local tier until
      the L1 entry expires. */
  lemma ReadYourWrite(cfg: Config, w: World, key: string, v: Bytes, ttl: int, env: Env, ops: seq<Op>, last: Env)
    requires ValidConfig(cfg) && cfg.l1 && key != "" && ttl >= 0 && env.write.Written?
    requires Possible(cfg, SetWorld(cfg, w, key, v, ttl, env), ops)
    requires
      var expiry := env.now + LifeOf(cfg.l1TTL, ttl);
      && (forall i :: 0 <= i < |ops| ==> LeavesAlone(cfg, key, ops[i]) && TimeOf(ops[i]) <= expiry)
      && last.now <= expiry && last.read.NoFault?
    ensures
      var w' := After(cfg, SetWorld(cfg, w, key, v, ttl, env), ops);
      var r := GetSpec(cfg, w'.cache, key, last).1;
      r.data == Some(v) && (r.tier.L0? || r.tier.L1?)
  {
    var start, expiry := SetWorld(cfg, w, key, v, ttl, env), env.now + LifeOf(cfg.l1TTL, ttl);
    HoldsThroughRun(cfg, start, key, v, expiry, ops);
    HoldsThroughOwnGet(cfg, After(cfg, start, ops).cache, key, v, expiry, last);
  }

  // ---------------------------------------------------------------- accounting

  /** How many of the given lookups reach L1, L2 and the fallback, by the miss counters before. */
  function ReachL1(cfg: Config, n: Counters, gets: nat): nat {
    if cfg.l0 then n.l0Misses else gets
  }

  function ReachL2(cfg: Config, n: Counters, gets: nat): nat {
    if cfg.l1 then n.l1Misses else ReachL1(cfg, n, gets)
  }

  function ReachFallback(cfg: Config, n: Counters, gets: nat): nat {
    if cfg.loader then n.l2Misses else ReachL2(cfg, n, gets)
  }

  /** Every lookup that reaches an enabled tier is counted there once, as a hit or as a miss;
      the loads of GetOrLoad count as L2 hits. */
  predicate Balanced(cfg: Config, n: Counters, gets: nat, loads: nat) {
    && (cfg.l0 ==> n.l0Hits + n.l0Misses == gets)
    && (cfg.l1 ==> n.l1Hits + n.l1Misses == ReachL1(cfg, n, gets))
    && (cfg.loader ==> n.l2Hits + n.l2Misses == ReachL2(cfg, n, gets) + loads)
    && (cfg.fallback ==> n.fallbackHits + n.fallbackMisses == ReachFallback(cfg, n, gets))
  }

  /** One lookup went through the remote tiers, reached times being 0 or 1. */
  predicate CountsRemote(cfg: Config, n: Counters, n': Counters, reached: int) {
    && n'.l0Hits == n.l0Hits && n'.l0Misses == n.l0Misses
    && (cfg.loader ==> n'.l2Hits + n'.l2Misses == n.l2Hits + n.l2Misses + reached)
    && var failed := if cfg.loader then n'.l2Misses - n.l2Misses else reached;
    cfg.fallback ==> n'.fallbackHits + n'.fallbackMisses == n.fallbackHits + n.fallbackMisses + failed
  }

  /** One lookup went through L1 and what follows. */
  predicate CountsDisk(cfg: Config, n: Counters, n': Counters) {
    && (cfg.l1 ==> n'.l1Hits + n'.l1Misses == n.l1Hits + n.l1Misses + 1)
    && CountsRemote(cfg, n, n', if cfg.l1 then n'.l1Misses - n.l1Misses else 1)
  }

  lemma L1Counts(cfg: Config, c: Cache, k: string, env: Env)
    ensures CountsDisk(cfg, c.counters, L1Stage(cfg, c, k, env).0.counters)
  {
  }

  lemma BalancedAfterMiss(cfg: Config, n: Counters, n': Counters, gets: nat, loads: nat)
    requires Balanced(cfg, n, gets, loads)
    requires CountsDisk(cfg, if cfg.l0 then n.(l0Misses := n.l0Misses + 1) else n, n')
    ensures Balanced(cfg, n', gets + 1, loads)
  {
  }

  function Missed(cfg: Config, c: Cache): Cache {
    if cfg.l0 then c.(counters := c.counters.(l0Misses := c.counters.l0Misses + 1)) else c
  }

  lemma BalancedL1(cfg: Config, c: Cache, k: string, env: Env, gets: nat, loads: nat)
    requires Balanced(cfg, c.counters, gets, loads)
    ensures Balanced(cfg, L1Stage(cfg, Missed(cfg, c), k, env).0.counters, gets + 1, loads)
  {
    L1Counts(cfg, Missed(cfg, c), k, env);
    BalancedAfterMiss(cfg, c.counters, L1Stage(cfg, Missed(cfg, c), k, env).0.counters, gets, loads);
  }

  lemma GetSplits(cfg: Config, c: Cache, key: string, env: Env)
    requires key != ""
    ensures
      var k := PrefixKey(cfg, key);
      if cfg.l0 && L0Live(c.tiers, k, env.now)
      then GetSpec(cfg, c, key, env).0.counters == c.counters.(l0Hits := c.counters.l0Hits + 1)
      else GetSpec(cfg, c, key, env) == L1Stage(cfg, Missed(cfg, c), k, env)
  {
  }

  lemma BalancedGet(cfg: Config, c: Cache, key: string, env: Env, gets: nat, loads: nat, n: Counters)
    requires key != "" && Balanced(cfg, c.counters, gets, loads)
    requires n == GetSpec(cfg, c, key, env).0.counters
    ensures Balanced(cfg, n, gets + 1, loads)
  {
    var k := PrefixKey(cfg, key);
    GetSplits(cfg, c, key, env);
    if !(cfg.l0 && L0Live(c.tiers, k, env.now)) {
      BalancedL1(cfg, c, k, env, gets, loads);
    }
  }

  lemma {:induction false} EveryRunBalances(cfg: Config, ops: seq<Op>)
    requires Possible(cfg, EMPTY, ops)
    ensures var w := After(cfg, EMPTY, ops); Balanced(cfg, w.cache.counters, w.gets, w.loads)
  {
    if ops == [] {
    } else {
      var front := ops[..|ops| - 1];
      EveryRunBalances(cfg, front);
      BalancedApply(cfg, After(cfg, EMPTY, front), ops[|ops| - 1]);
    }
  }

  lemma OtherOpsCountLoads(cfg: Config, w: World, op: Op)
    requires op.DoGet? ==> op.key == ""
    ensures
      var w', n := Apply(cfg, w, op), w.cache.counters;
      && w'.gets == w.gets
      && w'.loads == w.loads + (if op.DoLoad? then 1 else 0)
      && w'.cache.counters == if op.DoLoad? then n.(l2Hits := n.l2Hits + 1) else n
  {
  }

  lemma BalancedApply(cfg: Config, w: World, op: Op)
    requires Balanced(cfg, w.cache.counters, w.gets, w.loads)
    ensures var w' := Apply(cfg, w, op); Balanced(cfg, w'.cache.counters, w'.gets, w'.loads)
  {
    var w' := Apply(cfg, w, op);
    if op.DoGet? && op.key != "" {
      assert w'.gets == w.gets + 1 && w'.loads == w.loads;
      BalancedGet(cfg, w.cache, op.key, op.env, w.gets, w.loads, w'.cache.counters);
    } else {
      OtherOpsCountLoads(cfg, w, op);
    }
  }

  /** With all tiers on, these are the documented identities. */
  lemma CountersAddUp(cfg: Config, ops: seq<Op>)
    requires Possible(cfg, EMPTY, ops) && cfg.l0 && cfg.l1 && cfg.loader && cfg.fallback
    ensures
      var w := After(cfg, EMPTY, ops);
      var n := w.cache.counters;
      && w.gets == n.l0Hits + n.l0Misses
      && n.l0Misses == n.l1Hits + n.l1Misses
      && n.l1Misses + w.loads == n.l2Hits + n.l2Misses
      && n.l2Misses == n.fallbackHits + n.fallbackMisses
  {
    EveryRunBalances(cfg, ops);
  }

  // ---------------------------------------------------------------- disk bytes

  ghost function TotalBytes(data: map<string, Bytes>): nat
    decreases |data|
  {
    if data == map[] then 0
    else
      var k :| k in data;
      |data[k]| + TotalBytes(data - {k})
  }

  lemma {:induction false} TotalWithout(data: map<string, Bytes>, k: string)
    requires k in data
    ensures TotalBytes(data) == |data[k]| + TotalBytes(data - {k})
    decreases |data|
  {
    var j :| j in data && TotalBytes(data) == |data[j]| + TotalBytes(data - {j});
    if j == k {
    } else {
      TotalWithout(data - {j}, k);
      TotalWithout(data - {k}, j);
      assert data - {j} - {k} == data - {k} - {j};
    }
  }

  /** The L1 size counter exceeds the bytes on disk by exactly the bytes writes replaced. */
  ghost predicate SizeAccounted(t: Tiers, overwritten: nat) {
    t.l1Size == TotalBytes(t.data) + overwritten
  }

  lemma SizeDelete(t: Tiers, k: string, overwritten: nat)
    requires SizeAccounted(t, overwritten)
    ensures SizeAccounted(DeleteL1(t, k), overwritten)
  {
    if k in t.data {
      TotalWithout(t.data, k);
    } else {
      assert t.data - {k} == t.data;
    }
  }

  lemma SizePopulate(cfg: Config, t: Tiers, k: string, value: Bytes, l0TTL: int, l1TTL: int, env: Env, overwritten: nat)
    requires SizeAccounted(t, overwritten)
    ensures SizeAccounted(Populate(cfg, t, k, value, l0TTL, l1TTL, env), overwritten + Replaced(cfg, t, k, env))
  {
    if k in t.data {
      TotalWithout(t.data, k);
    } else {
      assert t.data - {k} == t.data;
    }
    TotalWithout(t.data[k := value], k);
    assert t.data[k := value] - {k} == t.data - {k};
  }

  lemma SizeGet(cfg: Config, w: World, key: string, env: Env)
    requires key != "" && SizeAccounted(w.cache.tiers, w.overwritten)
    ensures var w' := GetWorld(cfg, w, key, env); SizeAccounted(w'.cache.tiers, w'.overwritten)
  {
    var k, r := PrefixKey(cfg, key), GetSpec(cfg, w.cache, key, env).1;
    GetServed(cfg, w.cache, key, env);
    SizeDelete(w.cache.tiers, k, w.overwritten);
    if r.tier.L2? || r.tier.Fallback? {
      SizePopulate(cfg, Swept(cfg, w.cache.tiers, k, env), k, r.data.value, cfg.l0TTL, cfg.l1TTL, env, w.overwritten);
    }
  }

  lemma SizeApply(cfg: Config, w: World, op: Op)
    requires SizeAccounted(w.cache.tiers, w.overwritten)
    ensures var w' := Apply(cfg, w, op); SizeAccounted(w'.cache.tiers, w'.overwritten)
  {
    var t := w.cache.tiers;
    match op
    case DoGet(key, env) =>
      if key != "" { SizeGet(cfg, w, key, env); }
    case DoSet(key, value, ttl, env) =>
      if key != "" && value.Some? {
        SizePopulate(cfg, t, PrefixKey(cfg, key), value.value, L0TTLFor(cfg, ttl), L1TTLFor(cfg, ttl), env,
                     w.overwritten);
      }
    case DoLoad(key, bytes, env) =>
      if key != "" {
        SizePopulate(cfg, t, PrefixKey(cfg, key), bytes, cfg.l0TTL, cfg.l1TTL, env, w.overwritten);
      }
    case DoDelete(key, _) =>
      var k := PrefixKey(cfg, key);
      SizeDelete(if cfg.l0 then t.(l0 := t.l0 - {k}) else t, k, w.overwritten);
    case Evict(_, _) =>
    case Garble(_, _) =>
  }

  /** In every run, whatever fails, L1Size is the bytes on disk plus the bytes that writes
      replaced or removed: the counter is exact if and only if no write ever did. */
  lemma {:induction false} SizeDriftIsOverwrites(cfg: Config, ops: seq<Op>)
    requires Possible(cfg, EMPTY, ops)
    ensures
      var w := After(cfg, EMPTY, ops);
      && w.cache.tiers.l1Size == TotalBytes(w.cache.tiers.data) + w.overwritten
      && (w.cache.tiers.l1Size == TotalBytes(w.cache.tiers.data) <==> w.overwritten == 0)
  {
    if ops == [] {
    } else {
      var front := ops[..|ops| - 1];
      SizeDriftIsOverwrites(cfg, front);
      SizeApply(cfg, After(cfg, EMPTY, front), ops[|ops| - 1]);
    }
  }
}
