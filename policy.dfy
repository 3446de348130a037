/**
 * The allocation policy of the Starlark policy engine: the pool and schedule registries, pool
 * construction with defaults, the pool-matching and requirement rules, the suitability score and
 * the ranking of recommended GPUs.
 *
 * Telemetry and thresholds are reals. The score, which the engine adds up in floating point from
 * steps of 0.5, 0.3, 0.2 and -0.3, is kept in integer tenths (a score of 1.5 is 15).
 */
module Policy {
  import opened Wrappers

  datatype GpuInfo = GpuInfo(
    id: int,
    name: string,
    uuid: string,
    memoryGB: real,
    temperatureC: real,
    powerW: real,
    online: bool,
    registered: bool,
    pool: string,
    tags: seq<string>)

  /** An optimisation strategy or health-check entry of a pool: keyword arguments by name. */
  type Directive = map<string, string>

  datatype GpuPool = GpuPool(
    name: string,
    gpuTypes: seq<string>,
    minMemoryGB: real,
    maxTempC: real,
    powerPolicy: string,
    healthThreshold: real,
    optStrategies: seq<Directive>,
    healthChecks: seq<Directive>)

  datatype ScheduleRule = ScheduleRule(
    kind: string,
    metric: Option<string>,
    strategy: Option<string>,
    values: Option<seq<string>>,
    allow: Option<bool>)

  datatype ScheduleRuleset = ScheduleRuleset(name: string, rules: seq<ScheduleRule>)

  // ---------------------------------------------------------------------------------------------
  // Pool construction
  // ---------------------------------------------------------------------------------------------

  /** The `gpu_type` keyword: a single type name or a list of them. */
  datatype TypeArg = OneType(t: string) | TypeList(ts: seq<string>)

  /** The keyword arguments `gpu_pool(...)` may be given; `None` is an absent keyword. */
  datatype PoolArgs = PoolArgs(
    name: Option<string>,
    gpuType: Option<TypeArg>,
    minMemoryGB: Option<real>,
    maxTempC: Option<real>,
    powerPolicy: Option<string>,
    healthThreshold: Option<real>,
    optStrategies: Option<seq<Directive>>,
    healthChecks: Option<seq<Directive>>)

  /** `gpu_pool(...)`: each absent keyword takes its default, and a single type name becomes a
      one-element list. */
  function CreateGpuPool(args: PoolArgs): (p: GpuPool)
    ensures p.name == GetOr(args.name, "default")
    ensures args.gpuType == None ==> p.gpuTypes == []
    ensures args.gpuType.Some? && args.gpuType.value.OneType? ==> p.gpuTypes == [args.gpuType.value.t]
    ensures args.gpuType.Some? && args.gpuType.value.TypeList? ==> p.gpuTypes == args.gpuType.value.ts
    ensures p.minMemoryGB == GetOr(args.minMemoryGB, 0.0)
    ensures p.maxTempC == GetOr(args.maxTempC, 100.0)
    ensures p.powerPolicy == GetOr(args.powerPolicy, "adaptive")
    ensures p.healthThreshold == GetOr(args.healthThreshold, 0.9)
    ensures p.optStrategies == GetOr(args.optStrategies, [])
    ensures p.healthChecks == GetOr(args.healthChecks, [])
  {
    var types := match GetOr(args.gpuType, TypeList([]))
      case OneType(t) => [t]
      case TypeList(ts) => ts;
    GpuPool(GetOr(args.name, "default"), types, GetOr(args.minMemoryGB, 0.0), GetOr(args.maxTempC, 100.0),
            GetOr(args.powerPolicy, "adaptive"), GetOr(args.healthThreshold, 0.9),
            GetOr(args.optStrategies, []), GetOr(args.healthChecks, []))
  }

  /** With no keywords at all the pool is the documented default pool, which admits every
      GPU type, any memory size and temperatures up to 100 degrees. */
  lemma DefaultPool()
    ensures var p := CreateGpuPool(PoolArgs(None, None, None, None, None, None, None, None));
      p == GpuPool("default", [], 0.0, 100.0, "adaptive", 0.9, [], [])
  {
  }

  // ---------------------------------------------------------------------------------------------
  // Matching and requirements
  // ---------------------------------------------------------------------------------------------

  /** Python's `t in s` on strings, searched from the left: `t` starts here or further on. */
  predicate IsSubstring(t: string, s: string)
    decreases |s|
  {
    if |t| > |s| then false else s[..|t|] == t || (|s| > 0 && IsSubstring(t, s[1..]))
  }

  /** The substring test is exactly "s splits into a prefix, t and a suffix". */
  lemma IsSubstringIff(t: string, s: string)
    ensures IsSubstring(t, s) <==> exists a, b :: s == a + t + b
  {
    if IsSubstring(t, s) {
      var a, b := SubstringSplits(t, s);
    }
    if exists a, b :: s == a + t + b {
      var a, b :| s == a + t + b;
      SplitIsSubstring(t, a, b);
    }
  }

  lemma {:induction false} SubstringSplits(t: string, s: string) returns (a: string, b: string)
    requires IsSubstring(t, s)
    ensures s == a + t + b
    decreases |s|
  {
    if s[..|t|] == t {
      a, b := [], s[|t|..];
      assert s == s[..|t|] + s[|t|..];
    } else {
      var a', b' := SubstringSplits(t, s[1..]);
      a, b := [s[0]] + a', b';
      assert s == [s[0]] + s[1..];
    }
  }

  lemma {:induction false} SplitIsSubstring(t: string, a: string, b: string)
    ensures IsSubstring(t, a + t + b)
    decreases |a|
  {
    var s := a + t + b;
    if a == [] {
      assert s[..|t|] == t;
    } else {
      assert s[1..] == a[1..] + t + b;
      SplitIsSubstring(t, a[1..], b);
    }
  }

  /** Python's `any(t in name for t in types)`. */
  predicate SomeTypeOccurs(types: seq<string>, name: string)
    decreases |types|
  {
    |types| > 0 && (IsSubstring(types[0], name) || SomeTypeOccurs(types[1..], name))
  }

  lemma {:induction false} SomeTypeOccursIff(types: seq<string>, name: string)
    ensures SomeTypeOccurs(types, name) <==> exists t :: t in types && IsSubstring(t, name)
    decreases |types|
  {
    if types != [] {
      SomeTypeOccursIff(types[1..], name);
      if exists t :: t in types && IsSubstring(t, name) {
        var t :| t in types && IsSubstring(t, name);
        if t != types[0] {
          var k :| 0 <= k < |types| && types[k] == t;
          assert types[1..][k - 1] == t;
        }
      }
    }
  }

  /** The pool's type filter as written: an empty type list admits every GPU; otherwise the name
      must be one of the types or contain one of them. */
  predicate TypeAdmits(types: seq<string>, name: string) {
    !(|types| > 0 && name !in types && !SomeTypeOccurs(types, name))
  }

  /** `_matches_pool`: the type filter, the memory floor, the temperature ceiling and the GPU's own
      pool assignment, tried in that order. */
  predicate MatchesPool(gpu: GpuInfo, pool: GpuPool) {
    if !TypeAdmits(pool.gpuTypes, gpu.name) then false
    else if gpu.memoryGB < pool.minMemoryGB then false
    else if gpu.temperatureC > pool.maxTempC then false
    else if gpu.pool != "" && gpu.pool != pool.name then false
    else true
  }

  /** The exact-name test is subsumed by the substring test: a non-empty type list admits a GPU iff
      some type occurs in its name. */
  lemma TypeAdmitsIff(types: seq<string>, name: string)
    ensures TypeAdmits(types, name) <==> |types| == 0 || exists t :: t in types && IsSubstring(t, name)
  {
    SomeTypeOccursIff(types, name);
    if name in types {
      assert name[..|name|] == name;
      assert IsSubstring(name, name);
    }
  }

  /** A GPU matches a pool iff the type filter admits it, it has at least the pool's memory, it is
      no hotter than the pool's ceiling (reaching the ceiling exactly is allowed) and it is either
      unassigned or assigned to this pool. */
  lemma MatchesPoolIff(gpu: GpuInfo, pool: GpuPool)
    ensures MatchesPool(gpu, pool) <==>
      && (|pool.gpuTypes| == 0 || exists t :: t in pool.gpuTypes && IsSubstring(t, gpu.name))
      && pool.minMemoryGB <= gpu.memoryGB
      && gpu.temperatureC <= pool.maxTempC
      && (gpu.pool == "" || gpu.pool == pool.name)
  {
    TypeAdmitsIff(pool.gpuTypes, gpu.name);
  }

  /** The requirement keys `evaluate_allocation` honours; `None` is an absent key. Any other key of
      the requirement dictionary has no effect and is not represented. */
  datatype Requirements = Requirements(minMemory: Option<real>, maxTemp: Option<real>, tags: Option<seq<string>>)

  /** `_meets_requirements`. */
  predicate MeetsRequirements(gpu: GpuInfo, req: Requirements) {
    if req.minMemory.Some? && gpu.memoryGB < req.minMemory.value then false
    else if req.maxTemp.Some? && gpu.temperatureC > req.maxTemp.value then false
    else if req.tags.Some? && !(forall t :: t in req.tags.value ==> t in gpu.tags) then false
    else true
  }

  /** Each present key is one constraint, bounds inclusive; the required tags must all be among the
      GPU's tags, whatever their order or repetition. */
  lemma MeetsRequirementsIff(gpu: GpuInfo, req: Requirements)
    ensures MeetsRequirements(gpu, req) <==>
      && (req.minMemory.Some? ==> req.minMemory.value <= gpu.memoryGB)
      && (req.maxTemp.Some? ==> gpu.temperatureC <= req.maxTemp.value)
      && (req.tags.Some? ==> (set t | t in req.tags.value) <= (set t | t in gpu.tags))
  {
    if req.tags.Some? {
      var wanted, held := set t | t in req.tags.value, set t | t in gpu.tags;
      assert wanted <= held <==> forall t :: t in req.tags.value ==> t in gpu.tags by {
        forall t ensures t in wanted <==> t in req.tags.value {}
        forall t ensures t in held <==> t in gpu.tags {}
      }
    }
  }

  /** The pool takes the GPU and the GPU meets the requirements. */
  predicate Fits(gpu: GpuInfo, pool: GpuPool, req: Requirements) {
    MatchesPool(gpu, pool) && MeetsRequirements(gpu, req)
  }

  /** What `evaluate_allocation` answers: some registered pool matches and the requirements hold. */
  ghost predicate Admitted(pools: map<string, GpuPool>, gpu: GpuInfo, req: Requirements) {
    exists p :: p in pools.Values && Fits(gpu, p, req)
  }

  /** Admission decided over a list holding exactly the registered pools. */
  lemma AdmittedByList(pools: map<string, GpuPool>, all: seq<GpuPool>, gpu: GpuInfo, req: Requirements)
    requires forall p :: p in all <==> p in pools.Values
    ensures Admitted(pools, gpu, req) <==> exists k :: 0 <= k < |all| && Fits(gpu, all[k], req)
  {
    if Admitted(pools, gpu, req) {
      var p :| p in pools.Values && Fits(gpu, p, req);
      var k :| 0 <= k < |all| && all[k] == p;
    }
  }

  /** With no pools registered, nothing is ever admitted; an admitted GPU always meets the
      requirements. */
  lemma AdmittedNeedsPool(pools: map<string, GpuPool>, gpu: GpuInfo, req: Requirements)
    ensures pools == map[] ==> !Admitted(pools, gpu, req)
    ensures Admitted(pools, gpu, req) ==> MeetsRequirements(gpu, req)
  {
    if pools == map[] {
      assert pools.Values == {};
    }
  }

  // ---------------------------------------------------------------------------------------------
  // Score and ranking
  // ---------------------------------------------------------------------------------------------

  /** `_score_gpu`, in tenths: 10, plus 5 when online, plus 3 with at least 16 GB, plus 2 below
      60 degrees or minus 3 above 80. */
  function ScoreTenths(gpu: GpuInfo): (s: int)
    ensures 7 <= s <= 20
  {
    var online := if gpu.online then 5 else 0;
    var memory := if gpu.memoryGB >= 16.0 then 3 else 0;
    var heat := if gpu.temperatureC < 60.0 then 2 else if gpu.temperatureC > 80.0 then -3 else 0;
    10 + online + memory + heat
  }

  /** The score prefers online GPUs, more memory and cooler GPUs: changing one of these in the
      preferred direction never lowers it. */
  lemma ScorePreferences(a: GpuInfo, b: GpuInfo)
    ensures a.memoryGB == b.memoryGB && a.temperatureC == b.temperatureC && a.online && !b.online
      ==> ScoreTenths(a) == ScoreTenths(b) + 5
    ensures a.online == b.online && a.temperatureC == b.temperatureC && a.memoryGB >= b.memoryGB
      ==> ScoreTenths(a) >= ScoreTenths(b)
    ensures a.online == b.online && a.memoryGB == b.memoryGB && a.temperatureC <= b.temperatureC
      ==> ScoreTenths(a) >= ScoreTenths(b)
  {
  }

  /** A recommended GPU with its score and its position in the input list; the position is what
      makes the sort's stability statable. */
  datatype Candidate = Candidate(gpu: GpuInfo, score: int, position: nat)

  /** `a` is ranked before `b`: a higher score, or the same score and earlier in the input. */
  predicate Precedes(a: Candidate, b: Candidate) {
    a.score > b.score || (a.score == b.score && a.position < b.position)
  }

  predicate Ranked(s: seq<Candidate>) {
    forall i, j :: 0 <= i < j < |s| ==> Precedes(s[i], s[j])
  }

  /** Places `c` after every entry that scores at least as much, so that among equal scores the
      later input stays later. */
  function Insert(s: seq<Candidate>, c: Candidate): (r: seq<Candidate>)
    ensures multiset(r) == multiset(s) + multiset{c}
  {
    if s == [] || s[0].score < c.score then [c] + s
    else
      assert s == [s[0]] + s[1..];
      [s[0]] + Insert(s[1..], c)
  }

  lemma {:induction false} InsertRanked(s: seq<Candidate>, c: Candidate)
    requires Ranked(s)
    requires forall k :: 0 <= k < |s| ==> s[k].score > c.score || s[k].position < c.position
    ensures Ranked(Insert(s, c))
  {
    var r := Insert(s, c);
    if s == [] || s[0].score < c.score {
      forall j | 0 < j < |r| ensures Precedes(r[0], r[j]) {
        assert r[j] == s[j - 1];
        assert s[0].score >= s[j - 1].score by {
          if j - 1 > 0 { assert Precedes(s[0], s[j - 1]); }
        }
      }
      forall i, j | 0 < i < j < |r| ensures Precedes(r[i], r[j]) {
        assert Precedes(s[i - 1], s[j - 1]);
      }
    } else {
      var rest := Insert(s[1..], c);
      InsertRanked(s[1..], c);
      assert r == [s[0]] + rest;
      forall j | 0 <= j < |rest| ensures Precedes(s[0], rest[j]) {
        assert rest[j] in multiset(rest);
        assert rest[j] in multiset(s[1..]) || rest[j] == c;
        if rest[j] != c {
          assert rest[j] in s[1..];
          var k :| 0 <= k < |s[1..]| && s[1..][k] == rest[j];
          assert Precedes(s[0], s[k + 1]);
        }
      }
      forall i, j | 0 <= i < j < |r| ensures Precedes(r[i], r[j]) {
        if i == 0 {
          assert Precedes(s[0], rest[j - 1]);
        } else {
          assert Precedes(rest[i - 1], rest[j - 1]);
        }
      }
    }
  }

  /** The ranking `list.sort(key=score, reverse=True)` produces: stable, highest score first. */
  function Rank(s: seq<Candidate>): (r: seq<Candidate>)
    ensures multiset(r) == multiset(s)
  {
    if s == [] then []
    else
      assert s == s[..|s| - 1] + [s[|s| - 1]];
      Insert(Rank(s[..|s| - 1]), s[|s| - 1])
  }

  /** Ranking entries listed in input order with distinct positions gives a highest-first order in
      which equal scores keep their input order. */
  lemma {:induction false} RankRanked(s: seq<Candidate>)
    requires forall i, j :: 0 <= i < j < |s| ==> s[i].position < s[j].position
    ensures Ranked(Rank(s))
  {
    if s != [] {
      var init, c := s[..|s| - 1], s[|s| - 1];
      RankRanked(init);
      var r := Rank(init);
      forall k | 0 <= k < |r| ensures r[k].score > c.score || r[k].position < c.position {
        assert r[k] in multiset(init);
        var m :| 0 <= m < |init| && init[m] == r[k];
        assert s[m] == r[k];
      }
      InsertRanked(r, c);
    }
  }

  /** The loop of `get_recommended_gpus` before the sort: the admitted GPUs in input order, each
      with its score and position. */
  ghost function Candidates(pools: map<string, GpuPool>, gpus: seq<GpuInfo>, req: Requirements): seq<Candidate> {
    if gpus == [] then []
    else
      var n := |gpus| - 1;
      Candidates(pools, gpus[..n], req)
        + (if Admitted(pools, gpus[n], req) then [Candidate(gpus[n], ScoreTenths(gpus[n]), n)] else [])
  }

  /** The candidates are exactly the admitted GPUs of the input, each once, scored, in input order. */
  /** `c` is the scored entry of an admitted GPU of `gpus`. */
  ghost predicate ScoredEntry(pools: map<string, GpuPool>, gpus: seq<GpuInfo>, req: Requirements, c: Candidate) {
    c.position < |gpus| && c.gpu == gpus[c.position] && Admitted(pools, c.gpu, req) && c.score == ScoreTenths(c.gpu)
  }

  /** One more GPU adds at most its own entry, at the end. */
  lemma CandidatesSnoc(pools: map<string, GpuPool>, gpus: seq<GpuInfo>, req: Requirements)
    requires gpus != []
    ensures var n := |gpus| - 1;
      Candidates(pools, gpus, req) == Candidates(pools, gpus[..n], req)
        + (if Admitted(pools, gpus[n], req) then [Candidate(gpus[n], ScoreTenths(gpus[n]), n)] else [])
  {
  }

  /** The candidates are the admitted GPUs of the input, scored, at their input positions, in
      input order. */
  lemma {:induction false} CandidatesAreAdmitted(pools: map<string, GpuPool>, gpus: seq<GpuInfo>, req: Requirements)
    ensures forall k :: 0 <= k < |Candidates(pools, gpus, req)| ==>
      ScoredEntry(pools, gpus, req, Candidates(pools, gpus, req)[k])
    ensures forall i, j :: 0 <= i < j < |Candidates(pools, gpus, req)| ==>
      Candidates(pools, gpus, req)[i].position < Candidates(pools, gpus, req)[j].position
    decreases |gpus|
  {
    if gpus != [] {
      var n := |gpus| - 1;
      var init := gpus[..n];
      CandidatesAreAdmitted(pools, init, req);
      var before := Candidates(pools, init, req);
      var cs := Candidates(pools, gpus, req);
      CandidatesSnoc(pools, gpus, req);
      forall k | 0 <= k < |cs| ensures ScoredEntry(pools, gpus, req, cs[k]) {
        if k < |before| {
          EntryOfPrefix(pools, gpus, req, before[k]);
        }
      }
      forall i, j | 0 <= i < j < |cs| ensures cs[i].position < cs[j].position {
        if j >= |before| {
          assert ScoredEntry(pools, init, req, before[i]);
        }
      }
    }
  }

  lemma EntryOfPrefix(pools: map<string, GpuPool>, gpus: seq<GpuInfo>, req: Requirements, c: Candidate)
    requires gpus != [] && ScoredEntry(pools, gpus[..|gpus| - 1], req, c)
    ensures ScoredEntry(pools, gpus, req, c)
  {
  }

  /** Every admitted GPU of the input has an entry. */
  lemma {:induction false} AdmittedAreCandidates(pools: map<string, GpuPool>, gpus: seq<GpuInfo>, req: Requirements, p: nat)
    requires p < |gpus| && Admitted(pools, gpus[p], req)
    ensures exists k :: 0 <= k < |Candidates(pools, gpus, req)| && Candidates(pools, gpus, req)[k].position == p
    decreases |gpus|
  {
    var n := |gpus| - 1;
    var init := gpus[..n];
    CandidatesSnoc(pools, gpus, req);
    var before := Candidates(pools, init, req);
    var cs := Candidates(pools, gpus, req);
    if p < n {
      assert gpus[p] == init[p];
      AdmittedAreCandidates(pools, init, req, p);
      var k :| 0 <= k < |before| && before[k].position == p;
      assert cs[k] == before[k];
    } else {
      assert cs[|before|].position == p;
    }
  }

  // ---------------------------------------------------------------------------------------------
  // The registries and the engine
  // ---------------------------------------------------------------------------------------------

  function Find<V>(m: map<string, V>, name: string): (r: Option<V>)
    ensures r.Some? <==> name in m
    ensures r.Some? ==> r.value == m[name]
  {
    if name in m then Some(m[name]) else None
  }

  /** The values of `m` in the order of `keys`. */
  function InOrder<V>(m: map<string, V>, keys: seq<string>): (r: seq<V>)
    requires forall k :: k in keys ==> k in m
    ensures |r| == |keys|
    ensures forall i :: 0 <= i < |keys| ==> r[i] == m[keys[i]]
  {
    if keys == [] then [] else [m[keys[0]]] + InOrder(m, keys[1..])
  }

  /** `keys` lists every key of `m` exactly once, as a Python dictionary's insertion order does. */
  ghost predicate IsOrderOf<V>(m: map<string, V>, keys: seq<string>) {
    && (forall k :: k in keys <==> k in m)
    && (forall i, j :: 0 <= i < j < |keys| ==> keys[i] != keys[j])
  }

  /** Listing in insertion order gives every stored value, and only stored values. */
  lemma InOrderIsValues<V>(m: map<string, V>, keys: seq<string>)
    requires IsOrderOf(m, keys)
    ensures |InOrder(m, keys)| == |m|
    ensures forall v :: v in InOrder(m, keys) <==> v in m.Values
  {
    var r := InOrder(m, keys);
    KeysCardinality(m, keys);
    forall v | v in m.Values ensures v in r {
      var k :| k in m && m[k] == v;
      var i :| 0 <= i < |keys| && keys[i] == k;
      assert r[i] == v;
    }
  }

  lemma {:induction false} KeysCardinality<V>(m: map<string, V>, keys: seq<string>)
    requires IsOrderOf(m, keys)
    ensures |keys| == |m|
    decreases |keys|
  {
    if keys == [] {
      assert m.Keys == {};
      assert m == map[];
    } else {
      var k := keys[0];
      var m' := map x | x in m && x != k :: m[x];
      assert m'.Keys == m.Keys - {k};
      forall x ensures x in keys[1..] <==> x in m' {
        if x in keys[1..] {
          var i :| 0 <= i < |keys[1..]| && keys[1..][i] == x;
          assert keys[i + 1] == x;
        }
        if x in m' {
          assert x in keys && x != keys[0];
          var i :| 0 <= i < |keys| && keys[i] == x;
          assert keys[1..][i - 1] == x;
        }
      }
      KeysCardinality(m', keys[1..]);
    }
  }

  /** `GPUOpsModule`: pools and schedules by name. Pools are also kept in insertion order, which is
      the order `get_all_pools` lists them in. */
  class GpuOps {
    var pools: map<string, GpuPool>
    var poolOrder: seq<string>
    var schedules: map<string, ScheduleRuleset>

    ghost predicate Valid()
      reads this
    {
      IsOrderOf(pools, poolOrder)
    }

    constructor ()
      ensures Valid()
      ensures pools == map[] && poolOrder == [] && schedules == map[]
    {
      pools, poolOrder, schedules := map[], [], map[];
    }

    /** Inserts or overwrites under the pool's name; an overwritten pool keeps its place. */
    method RegisterPool(pool: GpuPool)
      requires Valid()
      modifies this
      ensures Valid()
      ensures pools == old(pools)[pool.name := pool]
      ensures poolOrder == if pool.name in old(pools) then old(poolOrder) else old(poolOrder) + [pool.name]
      ensures schedules == old(schedules)
    {
      if pool.name !in pools {
        poolOrder := poolOrder + [pool.name];
      }
      pools := pools[pool.name := pool];
    }

    /** Inserts or overwrites under the ruleset's name. */
    method RegisterSchedule(schedule: ScheduleRuleset)
      modifies this
      ensures schedules == old(schedules)[schedule.name := schedule]
      ensures pools == old(pools) && poolOrder == old(poolOrder)
    {
      schedules := schedules[schedule.name := schedule];
    }

    method GetPool(name: string) returns (r: Option<GpuPool>)
      ensures r == Find(pools, name)
    {
      r := if name in pools then Some(pools[name]) else None;
    }

    method GetSchedule(name: string) returns (r: Option<ScheduleRuleset>)
      ensures r == Find(schedules, name)
    {
      r := if name in schedules then Some(schedules[name]) else None;
    }

    /** Every registered pool once, in registration order. */
    method GetAllPools() returns (all: seq<GpuPool>)
      requires Valid()
      ensures |all| == |pools|
      ensures forall p :: p in all <==> p in pools.Values
      ensures all == InOrder(pools, poolOrder)
    {
      InOrderIsValues(pools, poolOrder);
      all := InOrder(pools, poolOrder);
    }
  }

  /** A looked-up pool or schedule is the last one registered under that name. */
  lemma FindAfterRegister<V>(m: map<string, V>, name: string, v: V, other: string)
    ensures Find(m[name := v], name) == Some(v)
    ensures other != name ==> Find(m[name := v], other) == Find(m, other)
  {
  }

  /** The evaluating half of `PolicyEngine`; loading policy files is not modelled. */
  class Engine {
    const gpuOps: GpuOps

    constructor ()
      ensures fresh(gpuOps) && gpuOps.Valid() && gpuOps.pools == map[] && gpuOps.schedules == map[]
    {
      gpuOps := new GpuOps();
    }

    /** `evaluate_allocation`: tries the pools in registration order and answers at the first one
        that matches with the requirements met. */
    method EvaluateAllocation(gpu: GpuInfo, req: Requirements) returns (ok: bool)
      requires gpuOps.Valid()
      ensures ok <==> Admitted(gpuOps.pools, gpu, req)
    {
      var all := gpuOps.GetAllPools();
      ok := FirstFit(gpu, all, req);
      AdmittedByList(gpuOps.pools, all, gpu, req);
    }

    /** The loop of `evaluate_allocation`: true at the first pool that fits. */
    static method FirstFit(gpu: GpuInfo, pools: seq<GpuPool>, req: Requirements) returns (ok: bool)
      ensures ok <==> exists k :: 0 <= k < |pools| && Fits(gpu, pools[k], req)
    {
      for i := 0 to |pools|
        invariant forall k :: 0 <= k < i ==> !Fits(gpu, pools[k], req)
      {
        if MatchesPool(gpu, pools[i]) && MeetsRequirements(gpu, req) {
          return true;
        }
      }
      ok := false;
    }

    /** `get_recommended_gpus`: the admitted GPUs, scored, ranked highest score first with ties in
        input order. `ranked` is the sorted list of (GPU, score) pairs the source strips. */
    method GetRecommendedGpus(gpus: seq<GpuInfo>, req: Requirements)
      returns (recommended: seq<GpuInfo>, ranked: seq<Candidate>)
      requires gpuOps.Valid()
      ensures Ranked(ranked)
      ensures multiset(ranked) == multiset(Candidates(gpuOps.pools, gpus, req))
      ensures |recommended| == |ranked|
      ensures forall k :: 0 <= k < |ranked| ==> recommended[k] == ranked[k].gpu
    {
      var candidates: seq<Candidate> := [];
      for i := 0 to |gpus|
        invariant candidates == Candidates(gpuOps.pools, gpus[..i], req)
      {
        assert gpus[..i + 1][..i] == gpus[..i];
        var admitted := EvaluateAllocation(gpus[i], req);
        if admitted {
          candidates := candidates + [Candidate(gpus[i], ScoreTenths(gpus[i]), i)];
        }
      }
      assert gpus[..|gpus|] == gpus;
      CandidatesAreAdmitted(gpuOps.pools, gpus, req);
      RankRanked(candidates);
      var sorted := Rank(candidates);
      ranked := sorted;
      recommended := seq(|sorted|, k requires 0 <= k < |sorted| => sorted[k].gpu);
    }
  }
}
