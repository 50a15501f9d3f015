/** The tiered cache: a lossy RAM tier L0, a disk tier L1 of data and metadata files, a remote
    loader L2 and an HTTP fallback.  Clock readings, I/O outcomes and remote replies are given
    to each operation as its environment. */
module TieredCache {
  import opened Optional

  type Bytes = string

  /** Default lifetimes are positive once defaults have been applied. */
  datatype Config = Config(
    l0: bool, l1: bool, loader: bool, fallback: bool,
    l0TTL: int, l1TTL: int, keyPrefix: string)

  predicate ValidConfig(cfg: Config) {
    cfg.l0TTL > 0 && cfg.l1TTL > 0
  }

  datatype L0Entry = L0Entry(value: Bytes, expiresAt: int)

  /** A metadata file: an expiry time, or something that does not parse. */
  datatype MetaFile = Expires(at: int) | Garbled

  /** The local tiers, keyed by prefixed key (file names are hashes of it, taken to be
      distinct), and the counter of bytes in L1. */
  datatype Tiers = Tiers(l0: map<string, L0Entry>, data: map<string, Bytes>, meta: map<string, MetaFile>, l1Size: int)

  datatype Counters = Counters(
    l0Hits: nat, l0Misses: nat, l1Hits: nat, l1Misses: nat, l2Hits: nat, l2Misses: nat,
    fallbackHits: nat, fallbackMisses: nat, lazyExpired: nat)

  const NO_TIERS: Tiers := Tiers(map[], map[], map[], 0)
  const NO_COUNTERS: Counters := Counters(0, 0, 0, 0, 0, 0, 0, 0, 0)

  datatype Cache = Cache(tiers: Tiers, counters: Counters)

  datatype Tier = L0 | L1 | L2 | Fallback | Miss

  datatype GetResult = GetResult(data: Option<Bytes>, tier: Tier)

  datatype Reply = Failed | Nil | Found(value: Bytes)

  datatype ReadFault = NoFault | MetaUnreadable | DataUnreadable

  datatype WriteOutcome = Written | DirFailed | DataFailed | MetaFailed

  /** One operation's surroundings; admit says whether L0 accepts a value it is given. */
  datatype Env = Env(now: int, admit: bool, read: ReadFault, write: WriteOutcome, loader: Reply, fallback: Reply)

  // ------------------------------------------------------------ specification

  function PrefixKey(cfg: Config, key: string): string {
    if cfg.keyPrefix == "" then key else cfg.keyPrefix + ":" + key
  }

  predicate L0Live(t: Tiers, k: string, now: int) {
    k in t.l0 && now <= t.l0[k].expiresAt
  }

  predicate L1Live(t: Tiers, k: string, now: int) {
    k in t.data && k in t.meta && t.meta[k].Expires? && now <= t.meta[k].at
  }

  /** A refused value leaves nothing behind, not even an older one; a negative lifetime is ignored. */
  function SetL0(cfg: Config, t: Tiers, k: string, value: Bytes, ttl: int, env: Env): Tiers {
    if !cfg.l0 || ttl < 0 then t
    else t.(l0 := if env.admit then t.l0[k := L0Entry(value, env.now + ttl)] else t.l0 - {k})
  }

  function WriteL1(t: Tiers, k: string, value: Bytes, ttl: int, env: Env): Tiers {
    match env.write
    case Written =>
      t.(data := t.data[k := value], meta := t.meta[k := Expires(env.now + ttl)], l1Size := t.l1Size + |value|)
    case MetaFailed => t.(data := t.data - {k})
    case _ => t
  }

  function DeleteL1(t: Tiers, k: string): Tiers {
    t.(data := t.data - {k}, meta := t.meta - {k},
       l1Size := t.l1Size - if k in t.data then |t.data[k]| else 0)
  }

  /** What a disk lookup leaves behind: unusable files are deleted on the way. */
  function Sweep(t: Tiers, k: string, env: Env): Tiers {
    if env.read.MetaUnreadable? || k !in t.meta then t
    else if t.meta[k].Garbled? || env.now > t.meta[k].at then DeleteL1(t, k)
    else if env.read.DataUnreadable? || k in t.data then t
    else DeleteL1(t, k)
  }

  /** What it finds. */
  function Lookup(t: Tiers, k: string, env: Env): Option<Bytes> {
    if env.read.NoFault? && L1Live(t, k, env.now) then Some(t.data[k]) else None
  }

  predicate LazilyExpires(t: Tiers, k: string, env: Env) {
    !env.read.MetaUnreadable? && k in t.meta && t.meta[k].Expires? && env.now > t.meta[k].at
  }

  /** A value from outside goes to both local tiers. */
  function Populate(cfg: Config, t: Tiers, k: string, value: Bytes, l0TTL: int, l1TTL: int, env: Env): Tiers {
    var t' := SetL0(cfg, t, k, value, l0TTL, env);
    if cfg.l1 then WriteL1(t', k, value, l1TTL, env) else t'
  }

  function FallbackStage(cfg: Config, c: Cache, k: string, env: Env): (Cache, GetResult) {
    var n := c.counters;
    if !cfg.fallback then (c, GetResult(None, Miss))
    else if env.fallback.Found? then
      var v := env.fallback.value;
      (Cache(Populate(cfg, c.tiers, k, v, cfg.l0TTL, cfg.l1TTL, env), n.(fallbackHits := n.fallbackHits + 1)),
       GetResult(Some(v), Fallback))
    else (c.(counters := n.(fallbackMisses := n.fallbackMisses + 1)), GetResult(None, Miss))
  }

  function L2Stage(cfg: Config, c: Cache, k: string, env: Env): (Cache, GetResult) {
    var n := c.counters;
    if !cfg.loader then FallbackStage(cfg, c, k, env)
    else if env.loader.Found? then
      var v := env.loader.value;
      (Cache(Populate(cfg, c.tiers, k, v, cfg.l0TTL, cfg.l1TTL, env), n.(l2Hits := n.l2Hits + 1)),
       GetResult(Some(v), L2))
    else FallbackStage(cfg, c.(counters := n.(l2Misses := n.l2Misses + 1)), k, env)
  }

  function L1Stage(cfg: Config, c: Cache, k: string, env: Env): (Cache, GetResult) {
    if !cfg.l1 then L2Stage(cfg, c, k, env)
    else
      var n := if LazilyExpires(c.tiers, k, env)
               then c.counters.(lazyExpired := c.counters.lazyExpired + 1) else c.counters;
      var t := Sweep(c.tiers, k, env);
      var found := Lookup(c.tiers, k, env);
      if found.Some? then
        (Cache(SetL0(cfg, t, k, found.value, cfg.l0TTL, env), n.(l1Hits := n.l1Hits + 1)), GetResult(found, L1))
      else L2Stage(cfg, Cache(t, n.(l1Misses := n.l1Misses + 1)), k, env)
  }

  function L0Stage(cfg: Config, c: Cache, k: string, env: Env): (Cache, GetResult) {
    var n := c.counters;
    if !cfg.l0 then L1Stage(cfg, c, k, env)
    else if L0Live(c.tiers, k, env.now) then
      (c.(counters := n.(l0Hits := n.l0Hits + 1)), GetResult(Some(c.tiers.l0[k].value), L0))
    else L1Stage(cfg, c.(counters := n.(l0Misses := n.l0Misses + 1)), k, env)
  }

  function GetSpec(cfg: Config, c: Cache, key: string, env: Env): (Cache, GetResult) {
    if key == "" then (c, GetResult(None, Miss)) else L0Stage(cfg, c, PrefixKey(cfg, key), env)
  }

  function L0TTLFor(cfg: Config, ttl: int): int {
    if ttl == 0 then cfg.l0TTL else ttl
  }

  function L1TTLFor(cfg: Config, ttl: int): int {
    if ttl == 0 then cfg.l1TTL else ttl
  }

  /** value None is nil data. */
  function SetSpec(cfg: Config, t: Tiers, key: string, value: Option<Bytes>, ttl: int, env: Env): Tiers {
    if key == "" || value.None? then t
    else Populate(cfg, t, PrefixKey(cfg, key), value.value, L0TTLFor(cfg, ttl), L1TTLFor(cfg, ttl), env)
  }

  function DeleteSpec(cfg: Config, t: Tiers, key: string): Tiers {
    if key == "" then t
    else
      var k := PrefixKey(cfg, key);
      var t' := if cfg.l0 then t.(l0 := t.l0 - {k}) else t;
      if cfg.l1 then DeleteL1(t', k) else t'
  }

  /** The second half of GetOrLoad: cache what the loader returned and count it. */
  function LoadSpec(cfg: Config, c: Cache, key: string, value: Bytes, env: Env): Cache {
    Cache(SetSpec(cfg, c.tiers, key, Some(value), 0, env), c.counters.(l2Hits := c.counters.l2Hits + 1))
  }

  /** GetOrLoad is a Get, followed on a miss by a load.  custom: whether the caller passes its own
      loader; load is the reply of the loader used, env' the surroundings of the Set that follows. */
  function GetOrLoadSpec(cfg: Config, c: Cache, key: string, custom: bool, env: Env, load: Reply, env': Env):
    (Cache, Option<Bytes>)
  {
    var (c', got) := GetSpec(cfg, c, key, env);
    if got.data.Some? then (c', got.data)
    else if (!custom && !cfg.loader) || !load.Found? then (c', None)
    else (LoadSpec(cfg, c', key, load.value, env'), Some(load.value))
  }

  /** Warmup: one Get per key, each in its own surroundings. */
  function WarmupSpec(cfg: Config, c: Cache, keys: seq<string>, envs: seq<Env>): Cache
    requires |envs| == |keys|
  {
    if keys == [] then c
    else
      var n := |keys| - 1;
      GetSpec(cfg, WarmupSpec(cfg, c, keys[..n], envs[..n]), keys[n], envs[n]).0
  }

  // ------------------------------------------------------------------- client

  class Client {
    const cfg: Config
    var l0: map<string, L0Entry>
    var data: map<string, Bytes>
    var meta: map<string, MetaFile>
    var l1Size: int
    var counters: Counters

    constructor (cfg: Config)
      ensures this.cfg == cfg && State() == Cache(NO_TIERS, NO_COUNTERS)
    {
      this.cfg := cfg;
      l0, data, meta, l1Size, counters := map[], map[], map[], 0, NO_COUNTERS;
    }

    ghost function LocalTiers(): Tiers
      reads this
    {
      Tiers(l0, data, meta, l1Size)
    }

    ghost function State(): Cache
      reads this
    {
      Cache(LocalTiers(), counters)
    }

    method StoreL0(k: string, value: Bytes, ttl: int, env: Env)
      modifies this`l0
      ensures LocalTiers() == SetL0(cfg, old(LocalTiers()), k, value, ttl, env)
    {
      if !cfg.l0 {
        return;
      }
      if ttl < 0 {
        return;
      }
      if env.admit {
        l0 := l0[k := L0Entry(value, env.now + ttl)];
      } else {
        l0 := l0 - {k};
      }
    }

    method WriteFiles(k: string, value: Bytes, ttl: int, env: Env)
      modifies this`data, this`meta, this`l1Size
      ensures LocalTiers() == WriteL1(old(LocalTiers()), k, value, ttl, env)
    {
      if env.write.DirFailed? || env.write.DataFailed? {
        return;
      }
      data := data[k := value];
      if env.write.MetaFailed? {
        data := data - {k};
        assert data == old(data) - {k};
        return;
      }
      meta := meta[k := Expires(env.now + ttl)];
      l1Size := l1Size + |value|;
    }

    method DeleteFiles(k: string)
      modifies this`data, this`meta, this`l1Size
      ensures LocalTiers() == DeleteL1(old(LocalTiers()), k)
    {
      if k in data {
        l1Size := l1Size - |data[k]|;
      }
      data := data - {k};
      meta := meta - {k};
    }

    method ReadFiles(k: string, env: Env) returns (found: Option<Bytes>)
      modifies this`data, this`meta, this`l1Size, this`counters
      ensures LocalTiers() == Sweep(old(LocalTiers()), k, env)
      ensures found == Lookup(old(LocalTiers()), k, env)
      ensures counters == if LazilyExpires(old(LocalTiers()), k, env)
                          then old(counters).(lazyExpired := old(counters).lazyExpired + 1) else old(counters)
    {
      if env.read.MetaUnreadable? || k !in meta {
        return None;
      }
      if meta[k].Garbled? {
        DeleteFiles(k);
        return None;
      }
      if env.now > meta[k].at {
        DeleteFiles(k);
        counters := counters.(lazyExpired := counters.lazyExpired + 1);
        return None;
      }
      if env.read.DataUnreadable? {
        return None;
      }
      if k !in data {
        DeleteFiles(k);
        return None;
      }
      return Some(data[k]);
    }

    method Get(key: string, env: Env) returns (r: GetResult)
      modifies this
      ensures (State(), r) == GetSpec(cfg, old(State()), key, env)
    {
      if key == "" {
        return GetResult(None, Miss);
      }
      var k := PrefixKey(cfg, key);
      if cfg.l0 {
        if k in l0 && env.now <= l0[k].expiresAt {
          counters := counters.(l0Hits := counters.l0Hits + 1);
          return GetResult(Some(l0[k].value), L0);
        }
        counters := counters.(l0Misses := counters.l0Misses + 1);
      }
      if cfg.l1 {
        var found := ReadFiles(k, env);
        if found.Some? {
          counters := counters.(l1Hits := counters.l1Hits + 1);
          StoreL0(k, found.value, cfg.l0TTL, env);
          return GetResult(found, L1);
        }
        counters := counters.(l1Misses := counters.l1Misses + 1);
      }
      r := GetRemote(k, env);
    }

    /** Get once L0 and L1 have missed. */
    method GetRemote(k: string, env: Env) returns (r: GetResult)
      modifies this
      ensures (State(), r) == L2Stage(cfg, old(State()), k, env)
    {
      if cfg.loader {
        if env.loader.Found? {
          counters := counters.(l2Hits := counters.l2Hits + 1);
          PopulateLocal(k, env.loader.value, cfg.l0TTL, cfg.l1TTL, env);
          return GetResult(Some(env.loader.value), L2);
        }
        counters := counters.(l2Misses := counters.l2Misses + 1);
      }
      if cfg.fallback {
        if env.fallback.Found? {
          counters := counters.(fallbackHits := counters.fallbackHits + 1);
          PopulateLocal(k, env.fallback.value, cfg.l0TTL, cfg.l1TTL, env);
          return GetResult(Some(env.fallback.value), Fallback);
        }
        counters := counters.(fallbackMisses := counters.fallbackMisses + 1);
      }
      return GetResult(None, Miss);
    }

    /** The two local writes that every value from outside goes through. */
    method PopulateLocal(k: string, value: Bytes, l0TTL: int, l1TTL: int, env: Env)
      modifies this`l0, this`data, this`meta, this`l1Size
      ensures LocalTiers() == Populate(cfg, old(LocalTiers()), k, value, l0TTL, l1TTL, env)
    {
      StoreL0(k, value, l0TTL, env);
      if cfg.l1 {
        WriteFiles(k, value, l1TTL, env);
      }
    }

    method Set(key: string, value: Option<Bytes>, ttl: int, env: Env) returns (ok: bool)
      modifies this`l0, this`data, this`meta, this`l1Size
      ensures ok <==> key != "" && value.Some?
      ensures LocalTiers() == SetSpec(cfg, old(LocalTiers()), key, value, ttl, env)
    {
      if key == "" {
        return false;
      }
      if value.None? {
        return false;
      }
      var k := PrefixKey(cfg, key);
      var l0TTL, l1TTL := ttl, ttl;
      if ttl == 0 {
        l0TTL, l1TTL := cfg.l0TTL, cfg.l1TTL;
      }
      PopulateLocal(k, value.value, l0TTL, l1TTL, env);
      return true;
    }

    method Delete(key: string) returns (ok: bool)
      modifies this`l0, this`data, this`meta, this`l1Size
      ensures ok <==> key != ""
      ensures LocalTiers() == DeleteSpec(cfg, old(LocalTiers()), key)
    {
      if key == "" {
        return false;
      }
      var k := PrefixKey(cfg, key);
      if cfg.l0 {
        l0 := l0 - {k};
      }
      if cfg.l1 {
        DeleteFiles(k);
      }
      return true;
    }

    method GetOrLoad(key: string, custom: bool, env: Env, load: Reply, env': Env) returns (r: Option<Bytes>)
      modifies this
      ensures (State(), r) == GetOrLoadSpec(cfg, old(State()), key, custom, env, load, env')
    {
      var got := Get(key, env);
      if got.data.Some? {
        return got.data;
      }
      if !custom && !cfg.loader {
        return None;
      }
      match load {
        case Failed => return None;
        case Nil => return None;
        case Found(value) =>
          var _ := Set(key, Some(value), 0, env');
          counters := counters.(l2Hits := counters.l2Hits + 1);
          return Some(value);
      }
    }

    method Warmup(keys: seq<string>, envs: seq<Env>) returns (ok: bool)
      requires |envs| == |keys|
      modifies this
      ensures ok == cfg.loader
      ensures State() == if ok then WarmupSpec(cfg, old(State()), keys, envs) else old(State())
    {
      if !cfg.loader {
        return false;
      }
      for i := 0 to |keys|
        invariant State() == WarmupSpec(cfg, old(State()), keys[..i], envs[..i])
      {
        assert keys[..i + 1][..i] == keys[..i] && envs[..i + 1][..i] == envs[..i];
        var _ := Get(keys[i], envs[i]);
      }
      assert keys[..|keys|] == keys && envs[..|keys|] == envs;
      return true;
    }
  }
}
