/**
 * The daemon of cmd/gputld: its mock device manager, `Initialize` (the three default checks) and
 * one tick of the `RunHealthChecks` loop, which runs every enabled check on every online,
 * registered GPU, pushes each status to the health gauge and raises an alert on "unhealthy".
 */
module Daemon {
  import opened Wrappers
  import opened Health

  // ---------------------------------------------------------------------------------------------
  // The mock GPUManager
  // ---------------------------------------------------------------------------------------------

  const MockName: string := "NVIDIA GeForce RTX 5070 Ti"

  /** The one device the mock reports, under any id asked for. */
  function MockGPU(id: int): GPU {
    GPU(id, MockName, 35.0, 10.0, 250.0, 0.0, 24.0, true, true)
  }

  /** The mock `GPUManager.GetGPU`: never fails, and echoes the id asked for. */
  function MockGetGPU(id: int): (r: Result<GPU, string>)
    ensures r.Ok? && r.value.id == id && r.value.online && r.value.registered
  {
    Ok(MockGPU(id))
  }

  /** The mock `GPUManager.GetAllGPUs`: exactly GPU 0, online and registered. */
  function MockGetAllGPUs(): (r: seq<GPU>)
    ensures |r| == 1 && r[0].id == 0 && r[0].online && r[0].registered
    ensures r[0] == MockGetGPU(0).value
  {
    [MockGPU(0)]
  }

  function MockManager(): GPUSource {
    GPUSource(MockGetAllGPUs(), MockGetGPU)
  }

  // ---------------------------------------------------------------------------------------------
  // Default checks
  // ---------------------------------------------------------------------------------------------

  const TemperatureCheck: CheckConfig := CheckConfig("temperature_check", "temperature", 10, 75.0, 85.0, true)
  const PowerCheck: CheckConfig := CheckConfig("power_check", "power", 60, 80.0, 95.0, true)
  const MemoryCheck: CheckConfig := CheckConfig("memory_check", "memory", 30, 80.0, 95.0, true)

  /** The registry after `Initialize` registered the three default checks over `checks`. */
  function WithDefaultChecks(checks: map<string, CheckConfig>): (r: map<string, CheckConfig>)
    ensures r.Keys == checks.Keys + {"temperature_check", "power_check", "memory_check"}
    ensures forall n :: n in checks && n !in {"temperature_check", "power_check", "memory_check"} ==> r[n] == checks[n]
  {
    checks[TemperatureCheck.name := TemperatureCheck][PowerCheck.name := PowerCheck][MemoryCheck.name := MemoryCheck]
  }

  /** The registry of a freshly initialised daemon. */
  function DefaultChecks(): map<string, CheckConfig> {
    WithDefaultChecks(map[])
  }

  /** The three default checks, their thresholds and periods, all enabled and filed under their
      own names. */
  lemma DefaultChecksAre()
    ensures DefaultChecks().Keys == {"temperature_check", "power_check", "memory_check"}
    ensures NamesAgree(DefaultChecks())
    ensures forall n :: n in DefaultChecks() ==> DefaultChecks()[n].enabled
    ensures var t := DefaultChecks()["temperature_check"];
            t.checkType == "temperature" && t.warningThreshold == 75.0 && t.criticalThreshold == 85.0 && t.intervalSec == 10
    ensures var p := DefaultChecks()["power_check"];
            p.checkType == "power" && p.warningThreshold == 80.0 && p.criticalThreshold == 95.0 && p.intervalSec == 60
    ensures var m := DefaultChecks()["memory_check"];
            m.checkType == "memory" && m.warningThreshold == 80.0 && m.criticalThreshold == 95.0 && m.intervalSec == 30
  {
  }

  // ---------------------------------------------------------------------------------------------
  // One tick, as functions of the registry, the device source and the device list
  // ---------------------------------------------------------------------------------------------

  /** What one tick hands to the outside world: a gauge update or an alert log line. */
  datatype Observation =
    | StatusPushed(gpuId: int, checkName: string, status: string)
    | Alert(gpuId: int, message: Message)

  /** The tick only looks at GPUs that are online and registered. */
  predicate Eligible(gpu: GPU) {
    gpu.online && gpu.registered
  }

  /** Every enabled check can classify what the source reports for this id. */
  ghost predicate Runnable(checks: map<string, CheckConfig>, source: GPUSource, gpuId: int) {
    source.getGPU(gpuId).Ok? ==>
      forall n :: n in checks && checks[n].enabled ==> Evaluable(checks[n], source.getGPU(gpuId).value)
  }

  ghost predicate TickRunnable(checks: map<string, CheckConfig>, source: GPUSource, gpus: seq<GPU>) {
    forall i :: 0 <= i < |gpus| && Eligible(gpus[i]) ==> Runnable(checks, source, gpus[i].id)
  }

  /** The observations of one (GPU, check) pair: nothing for a disabled check or an error, else
      the status push, followed by an alert when the status is unhealthy. */
  ghost function CheckEvents(checks: map<string, CheckConfig>, source: GPUSource, gpuId: int,
                             check: CheckConfig): seq<Observation>
    requires Runnable(checks, source, gpuId)
  {
    if !check.enabled then []
    else match RunCheckOutcome(checks, source, check.name, gpuId)
      case Err(_) => []
      case Ok(r) => Report(gpuId, check.name, r)
  }

  /** What the tick emits for one successful result: the status push, then an alert exactly
      when the status is unhealthy. */
  function Report(gpuId: int, checkName: string, r: CheckResult): (events: seq<Observation>)
    ensures |events| == if r.status == Unhealthy then 2 else 1
    ensures events[0] == StatusPushed(gpuId, checkName, r.status.Text())
    ensures r.status == Unhealthy ==> events[1] == Alert(gpuId, r.message)
  {
    [StatusPushed(gpuId, checkName, r.status.Text())] +
    (if r.status == Unhealthy then [Alert(gpuId, r.message)] else [])
  }

  /** The observations of one GPU, for the checks in the order `ListChecks` gave them. */
  ghost function GpuEvents(checks: map<string, CheckConfig>, source: GPUSource, gpuId: int,
                           listed: seq<CheckConfig>): seq<Observation>
    requires Runnable(checks, source, gpuId)
    decreases |listed|
  {
    if listed == [] then []
    else
      GpuEvents(checks, source, gpuId, listed[..|listed| - 1]) +
      CheckEvents(checks, source, gpuId, listed[|listed| - 1])
  }

  /** The observations of a tick, GPU by GPU; `listings[i]` is what `ListChecks` returned for
      the i-th GPU (ignored for GPUs that are not eligible). */
  ghost function TickEvents(checks: map<string, CheckConfig>, source: GPUSource, gpus: seq<GPU>,
                            listings: seq<seq<CheckConfig>>): seq<Observation>
    requires |listings| == |gpus|
    requires TickRunnable(checks, source, gpus)
    decreases |gpus|
  {
    if gpus == [] then []
    else
      var last := |gpus| - 1;
      TickEvents(checks, source, gpus[..last], listings[..last]) +
      (if Eligible(gpus[last]) then GpuEvents(checks, source, gpus[last].id, listings[last]) else [])
  }

  /** The store after running, in order, the checks `listed` on one GPU: each listed config that
      is enabled, and whose `RunCheck` `Stores`, overwrites its own key with the classification
      of the snapshot. */
  ghost function StoreAfter(results: map<string, CheckResult>, checks: map<string, CheckConfig>,
                            source: GPUSource, gpuId: int, listed: seq<CheckConfig>): map<string, CheckResult>
    requires Runnable(checks, source, gpuId)
    decreases |listed|
  {
    if listed == [] then results
    else
      var before := StoreAfter(results, checks, source, gpuId, listed[..|listed| - 1]);
      var check := listed[|listed| - 1];
      var name := check.name;
      if check.enabled && Stores(checks, source, name, gpuId)
      then before[ResultKey(name, gpuId) := Evaluate(checks[name], name, gpuId, source.getGPU(gpuId).value)]
      else before
  }

  /** The store after a tick, GPU by GPU; only eligible GPUs run their checks. */
  ghost function TickResults(results: map<string, CheckResult>, checks: map<string, CheckConfig>,
                             source: GPUSource, gpus: seq<GPU>, listings: seq<seq<CheckConfig>>)
    : map<string, CheckResult>
    requires |listings| == |gpus|
    requires TickRunnable(checks, source, gpus)
    decreases |gpus|
  {
    if gpus == [] then results
    else
      var last := |gpus| - 1;
      var before := TickResults(results, checks, source, gpus[..last], listings[..last]);
      if Eligible(gpus[last]) then StoreAfter(before, checks, source, gpus[last].id, listings[last])
      else before
  }

  /** One more check of the inner loop, as `GpuEvents` and `StoreAfter` see it. */
  lemma CheckGpuStep(results: map<string, CheckResult>, checks: map<string, CheckConfig>,
                     source: GPUSource, gpuId: int, listed: seq<CheckConfig>, j: int)
    requires Runnable(checks, source, gpuId)
    requires 0 <= j < |listed|
    ensures GpuEvents(checks, source, gpuId, listed[..j + 1]) ==
            GpuEvents(checks, source, gpuId, listed[..j]) + CheckEvents(checks, source, gpuId, listed[j])
    ensures StoreAfter(results, checks, source, gpuId, listed[..j + 1]) ==
            if listed[j].enabled && Stores(checks, source, listed[j].name, gpuId)
            then StoreAfter(results, checks, source, gpuId, listed[..j])[ResultKey(listed[j].name, gpuId) :=
                   Evaluate(checks[listed[j].name], listed[j].name, gpuId, source.getGPU(gpuId).value)]
            else StoreAfter(results, checks, source, gpuId, listed[..j])
  {
    assert listed[..j + 1][..j] == listed[..j];
  }

  /**
   * The inner loop of a tick for one eligible GPU, over the checks `ListChecks` returned, in that
   * order: a disabled check is not run, a check whose `RunCheck` fails is skipped, and every other
   * result is reported.
   */
  method RunListedChecks(monitor: HealthMonitor, gpuId: int, listed: seq<CheckConfig>)
    returns (events: seq<Observation>)
    requires Runnable(monitor.checks, monitor.gpuManager, gpuId)
    modifies monitor`results
    ensures events == GpuEvents(monitor.checks, monitor.gpuManager, gpuId, listed)
    ensures monitor.results == StoreAfter(old(monitor.results), monitor.checks, monitor.gpuManager, gpuId, listed)
  {
    ghost var start := monitor.results;
    events := [];
    for j := 0 to |listed|
      invariant events == GpuEvents(monitor.checks, monitor.gpuManager, gpuId, listed[..j])
      invariant monitor.results == StoreAfter(start, monitor.checks, monitor.gpuManager, gpuId, listed[..j])
    {
      var check := listed[j];
      CheckGpuStep(start, monitor.checks, monitor.gpuManager, gpuId, listed, j);
      if check.enabled {
        var result := monitor.RunCheck(check.name, gpuId);
        if result.Err? {
          continue;
        }
        events := events + [StatusPushed(gpuId, check.name, result.value.status.Text())];
        if result.value.status == Unhealthy {
          events := events + [Alert(gpuId, result.value.message)];
        }
      }
    }
    assert listed[..|listed|] == listed;
  }

  /** The checks can run on every eligible GPU of a prefix of the device list. */
  lemma TickRunnablePrefix(checks: map<string, CheckConfig>, source: GPUSource, gpus: seq<GPU>, n: nat)
    requires n <= |gpus|
    requires TickRunnable(checks, source, gpus)
    ensures TickRunnable(checks, source, gpus[..n])
  {
    forall i | 0 <= i < n && Eligible(gpus[..n][i]) ensures Runnable(checks, source, gpus[..n][i].id) {
      assert gpus[..n][i] == gpus[i];
    }
  }

  /** `listings[i]` is a listing of the registry for every eligible GPU `gpus[i]` it covers. */
  ghost predicate ListingsOf(checks: map<string, CheckConfig>, gpus: seq<GPU>, listings: seq<seq<CheckConfig>>) {
    forall i :: 0 <= i < |listings| && i < |gpus| && Eligible(gpus[i]) ==> IsListing(checks, listings[i])
  }

  lemma ListingsSnoc(checks: map<string, CheckConfig>, gpus: seq<GPU>, listings: seq<seq<CheckConfig>>,
                     listed: seq<CheckConfig>)
    requires ListingsOf(checks, gpus, listings)
    requires |listings| < |gpus|
    requires Eligible(gpus[|listings|]) ==> IsListing(checks, listed)
    ensures ListingsOf(checks, gpus, listings + [listed])
  {
    forall i | 0 <= i < |listings| + 1 && Eligible(gpus[i]) ensures IsListing(checks, (listings + [listed])[i]) {
      if i < |listings| {
        assert (listings + [listed])[i] == listings[i];
      }
    }
  }

  /** One more eligible GPU of the outer loop, as `TickEvents` and `TickResults` see it. */
  lemma TickStepEligible(results: map<string, CheckResult>, checks: map<string, CheckConfig>, source: GPUSource,
                         gpus: seq<GPU>, listings: seq<seq<CheckConfig>>, listed: seq<CheckConfig>)
    requires |listings| < |gpus|
    requires TickRunnable(checks, source, gpus[..|listings| + 1])
    requires Eligible(gpus[|listings|])
    ensures TickRunnable(checks, source, gpus[..|listings|])
    ensures Runnable(checks, source, gpus[|listings|].id)
    ensures TickEvents(checks, source, gpus[..|listings| + 1], listings + [listed]) ==
            TickEvents(checks, source, gpus[..|listings|], listings) +
            GpuEvents(checks, source, gpus[|listings|].id, listed)
    ensures TickResults(results, checks, source, gpus[..|listings| + 1], listings + [listed]) ==
            StoreAfter(TickResults(results, checks, source, gpus[..|listings|], listings),
                       checks, source, gpus[|listings|].id, listed)
  {
    var i := |listings|;
    assert gpus[..i + 1][..i] == gpus[..i];
    assert gpus[..i + 1][i] == gpus[i];
    assert (listings + [listed])[..i] == listings;
    TickRunnablePrefix(checks, source, gpus[..i + 1], i);
  }

  /** One more GPU of the outer loop that is not eligible: nothing is emitted or stored. */
  lemma TickStepSkipped(results: map<string, CheckResult>, checks: map<string, CheckConfig>, source: GPUSource,
                        gpus: seq<GPU>, listings: seq<seq<CheckConfig>>, listed: seq<CheckConfig>)
    requires |listings| < |gpus|
    requires TickRunnable(checks, source, gpus[..|listings| + 1])
    requires !Eligible(gpus[|listings|])
    ensures TickRunnable(checks, source, gpus[..|listings|])
    ensures TickEvents(checks, source, gpus[..|listings| + 1], listings + [listed]) ==
            TickEvents(checks, source, gpus[..|listings|], listings)
    ensures TickResults(results, checks, source, gpus[..|listings| + 1], listings + [listed]) ==
            TickResults(results, checks, source, gpus[..|listings|], listings)
  {
    var i := |listings|;
    assert gpus[..i + 1][..i] == gpus[..i];
    assert gpus[..i + 1][i] == gpus[i];
    assert (listings + [listed])[..i] == listings;
    TickRunnablePrefix(checks, source, gpus[..i + 1], i);
    assert TickEvents(checks, source, gpus[..i], listings) + [] == TickEvents(checks, source, gpus[..i], listings);
  }

  /**
   * The body of one `RunHealthChecks` tick over the devices `gpus`. The ghost `listings` are the
   * orders in which `ListChecks` returned the registry, one per GPU.
   */
  method RunHealthChecksTick(monitor: HealthMonitor, gpus: seq<GPU>)
    returns (events: seq<Observation>, ghost listings: seq<seq<CheckConfig>>)
    requires monitor.Valid()
    requires TickRunnable(monitor.checks, monitor.gpuManager, gpus)
    modifies monitor`results
    ensures |listings| == |gpus|
    ensures ListingsOf(monitor.checks, gpus, listings)
    ensures events == TickEvents(monitor.checks, monitor.gpuManager, gpus, listings)
    ensures monitor.results == TickResults(old(monitor.results), monitor.checks, monitor.gpuManager, gpus, listings)
  {
    ghost var checks, source, start := monitor.checks, monitor.gpuManager, monitor.results;
    events, listings := [], [];
    for i := 0 to |gpus|
      invariant |listings| == i
      invariant ListingsOf(checks, gpus, listings)
      invariant TickRunnable(checks, source, gpus[..i])
      invariant events == TickEvents(checks, source, gpus[..i], listings)
      invariant monitor.results == TickResults(start, checks, source, gpus[..i], listings)
    {
      var gpu := gpus[i];
      ghost var listed: seq<CheckConfig> := [];
      TickRunnablePrefix(checks, source, gpus, i + 1);
      if gpu.online && gpu.registered {
        var all := monitor.ListChecks();
        listed := all;
        TickStepEligible(start, checks, source, gpus, listings, all);
        ListingsSnoc(checks, gpus, listings, all);
        var more := RunListedChecks(monitor, gpu.id, all);
        events := events + more;
      } else {
        TickStepSkipped(start, checks, source, gpus, listings, listed);
        ListingsSnoc(checks, gpus, listings, listed);
      }
      listings := listings + [listed];
    }
    assert gpus[..|gpus|] == gpus;
  }

  // ---------------------------------------------------------------------------------------------
  // What a tick does, as lemmas about the functions above
  // ---------------------------------------------------------------------------------------------

  /** Every listed config is the registered config of its name (part of `IsListing`). */
  ghost predicate ListedFrom(checks: map<string, CheckConfig>, listed: seq<CheckConfig>) {
    forall i :: 0 <= i < |listed| ==> listed[i].name in checks && checks[listed[i].name] == listed[i]
  }

  ghost predicate DistinctNames(listed: seq<CheckConfig>) {
    forall i, j :: 0 <= i < j < |listed| ==> listed[i].name != listed[j].name
  }

  /** The names of the listed configs. */
  function NameSet(listed: seq<CheckConfig>): set<string>
    decreases |listed|
  {
    if listed == [] then {} else NameSet(listed[..|listed| - 1]) + {listed[|listed| - 1].name}
  }

  lemma {:induction false} NameSetMember(listed: seq<CheckConfig>, n: string)
    ensures n in NameSet(listed) <==> exists i :: 0 <= i < |listed| && listed[i].name == n
    decreases |listed|
  {
    if listed != [] {
      var prefix := listed[..|listed| - 1];
      NameSetMember(prefix, n);
      if n in NameSet(prefix) {
        var i :| 0 <= i < |prefix| && prefix[i].name == n;
        assert listed[i] == prefix[i];
      }
      if i :| 0 <= i < |listed| && listed[i].name == n {
        if i < |prefix| {
          assert prefix[i] == listed[i];
        }
      }
    }
  }

  lemma ListingNames(checks: map<string, CheckConfig>, listed: seq<CheckConfig>)
    requires IsListing(checks, listed)
    ensures ListedFrom(checks, listed) && DistinctNames(listed)
    ensures NameSet(listed) == checks.Keys
  {
    forall n ensures n in NameSet(listed) <==> n in checks {
      NameSetMember(listed, n);
    }
  }

  lemma PrefixListed(checks: map<string, CheckConfig>, listed: seq<CheckConfig>)
    requires listed != []
    requires ListedFrom(checks, listed) && DistinctNames(listed)
    ensures var prefix := listed[..|listed| - 1];
            ListedFrom(checks, prefix) && DistinctNames(prefix) && listed[|listed| - 1].name !in NameSet(prefix)
  {
    var prefix := listed[..|listed| - 1];
    NameSetMember(prefix, listed[|listed| - 1].name);
  }

  /** How many status pushes name the check `n`. */
  function Pushes(events: seq<Observation>, n: string): nat
    decreases |events|
  {
    if events == [] then 0
    else
      var e := events[|events| - 1];
      Pushes(events[..|events| - 1], n) + (if e.StatusPushed? && e.checkName == n then 1 else 0)
  }

  lemma {:induction false} PushesAppend(a: seq<Observation>, b: seq<Observation>, n: string)
    ensures Pushes(a + b, n) == Pushes(a, n) + Pushes(b, n)
    decreases |b|
  {
    if b == [] {
      assert a + b == a;
    } else {
      var b' := b[..|b| - 1];
      assert (a + b)[..|a + b| - 1] == a + b';
      PushesAppend(a, b', n);
    }
  }

  /** A registered, enabled check yields exactly one push of its own name; a disabled one none. */
  lemma CheckEventsPushes(checks: map<string, CheckConfig>, source: GPUSource, gpuId: int,
                          check: CheckConfig, n: string)
    requires Runnable(checks, source, gpuId)
    requires check.name in checks && checks[check.name] == check
    ensures Pushes(CheckEvents(checks, source, gpuId, check), n) ==
            if check.enabled && check.name == n then 1 else 0
  {
    if check.enabled {
      var r := RunCheckOutcome(checks, source, check.name, gpuId).value;
      var push: seq<Observation> := [StatusPushed(gpuId, check.name, r.status.Text())];
      var alert: seq<Observation> := if r.status == Unhealthy then [Alert(gpuId, r.message)] else [];
      assert push[..0] == [] && alert[..0] == [];
      PushesAppend(push, alert, n);
    }
  }

  /** One GPU's share of a tick pushes a status once for each enabled listed check, and for
      nothing else. */
  lemma {:induction false} GpuPushCount(checks: map<string, CheckConfig>, source: GPUSource, gpuId: int,
                                        listed: seq<CheckConfig>, n: string)
    requires Runnable(checks, source, gpuId)
    requires ListedFrom(checks, listed) && DistinctNames(listed)
    ensures Pushes(GpuEvents(checks, source, gpuId, listed), n) ==
            if n in checks && n in NameSet(listed) && checks[n].enabled then 1 else 0
    decreases |listed|
  {
    if listed != [] {
      var prefix, last := listed[..|listed| - 1], listed[|listed| - 1];
      PrefixListed(checks, listed);
      GpuPushCount(checks, source, gpuId, prefix, n);
      PushesAppend(GpuEvents(checks, source, gpuId, prefix), CheckEvents(checks, source, gpuId, last), n);
      CheckEventsPushes(checks, source, gpuId, last, n);
    }
  }

  /** `RunCheck` runs once for every enabled registered check on an eligible GPU: each such
      check's status is pushed exactly once, and no other name's status is pushed. */
  lemma OncePerEnabledCheck(checks: map<string, CheckConfig>, source: GPUSource, gpuId: int,
                            listed: seq<CheckConfig>, n: string)
    requires Runnable(checks, source, gpuId)
    requires IsListing(checks, listed)
    ensures Pushes(GpuEvents(checks, source, gpuId, listed), n) ==
            if n in checks && checks[n].enabled then 1 else 0
  {
    ListingNames(checks, listed);
    GpuPushCount(checks, source, gpuId, listed, n);
  }

  /** The status `RunCheck` reports for the check named `n` on a GPU. */
  ghost function ResultOf(checks: map<string, CheckConfig>, source: GPUSource, gpuId: int, n: string): CheckResult
    requires Runnable(checks, source, gpuId)
    requires n in checks && checks[n].enabled
  {
    RunCheckOutcome(checks, source, n, gpuId).value
  }

  /** Every event of one GPU's share is about that GPU, and every push carries the status
      `RunCheck` returns for an enabled check of that name. */
  lemma {:induction false} GpuEventsPushStatus(checks: map<string, CheckConfig>, source: GPUSource, gpuId: int,
                                               listed: seq<CheckConfig>)
    requires Runnable(checks, source, gpuId)
    requires ListedFrom(checks, listed)
    ensures forall e | e in GpuEvents(checks, source, gpuId, listed) :: e.gpuId == gpuId
    ensures forall e | e in GpuEvents(checks, source, gpuId, listed) && e.StatusPushed? ::
              e.checkName in checks && checks[e.checkName].enabled &&
              e.status == ResultOf(checks, source, gpuId, e.checkName).status.Text()
    decreases |listed|
  {
    if listed != [] {
      var prefix := listed[..|listed| - 1];
      assert ListedFrom(checks, prefix) by {
        forall i | 0 <= i < |prefix| ensures prefix[i] == listed[i] {}
      }
      GpuEventsPushStatus(checks, source, gpuId, prefix);
    }
  }

  /** An alert comes exactly right after each "unhealthy" push, and the sequence does not end on
      an "unhealthy" push. */
  ghost predicate AlertsFollowUnhealthy(ev: seq<Observation>) {
    && (|ev| > 0 ==> !ev[0].Alert?)
    && (forall k :: 0 < k < |ev| ==> (ev[k].Alert? <==> UnhealthyPush(ev[k - 1])))
    && (|ev| > 0 ==> !UnhealthyPush(ev[|ev| - 1]))
  }

  predicate UnhealthyPush(e: Observation) {
    e.StatusPushed? && e.status == "unhealthy"
  }

  /** In one GPU's share an alert comes exactly right after each "unhealthy" push and nowhere
      else. */
  lemma {:induction false} GpuEventsAlerts(checks: map<string, CheckConfig>, source: GPUSource, gpuId: int,
                                           listed: seq<CheckConfig>)
    requires Runnable(checks, source, gpuId)
    requires ListedFrom(checks, listed)
    ensures AlertsFollowUnhealthy(GpuEvents(checks, source, gpuId, listed))
    decreases |listed|
  {
    if listed != [] {
      var prefix, last := listed[..|listed| - 1], listed[|listed| - 1];
      assert ListedFrom(checks, prefix) by {
        forall i | 0 <= i < |prefix| ensures prefix[i] == listed[i] {}
      }
      GpuEventsAlerts(checks, source, gpuId, prefix);
      var before := GpuEvents(checks, source, gpuId, prefix);
      var mine := CheckEvents(checks, source, gpuId, last);
      var ev := before + mine;
      assert AlertsFollowUnhealthy(before);
      assert GpuEvents(checks, source, gpuId, listed) == ev;
      if mine == [] {
        assert ev == before;
      } else {
        var r := RunCheckOutcome(checks, source, last.name, gpuId).value;
        assert mine == Report(gpuId, last.name, r);
        assert r.status != Unhealthy ==> r.status.Text() != "unhealthy";
        assert !UnhealthyPush(mine[|mine| - 1]);
        forall k | 0 < k < |ev| ensures ev[k].Alert? <==> UnhealthyPush(ev[k - 1]) {
          if k < |before| {
            assert ev[k] == before[k] && ev[k - 1] == before[k - 1];
          } else if k == |before| {
            assert ev[k] == mine[0] && ev[k - 1] == before[|before| - 1];
          } else {
            assert ev[k] == mine[1] && ev[k - 1] == mine[0];
          }
        }
        if before == [] {
          assert ev[0] == mine[0];
        } else {
          assert ev[0] == before[0];
        }
        assert ev[|ev| - 1] == mine[|mine| - 1];
      }
    }
  }

  /** The ids of the GPUs that events are about. */
  function EventGpus(events: seq<Observation>): set<int> {
    set k | 0 <= k < |events| :: events[k].gpuId
  }

  /** The ids of the GPUs a tick looks at. */
  function EligibleIds(gpus: seq<GPU>): set<int> {
    set i | 0 <= i < |gpus| && Eligible(gpus[i]) :: gpus[i].id
  }

  lemma EventGpusAppend(a: seq<Observation>, b: seq<Observation>)
    ensures EventGpus(a + b) == EventGpus(a) + EventGpus(b)
  {
    forall x | x in EventGpus(a + b) ensures x in EventGpus(a) + EventGpus(b) {
      var k :| 0 <= k < |a + b| && (a + b)[k].gpuId == x;
      if k >= |a| {
        assert b[k - |a|].gpuId == x;
      } else {
        assert a[k].gpuId == x;
      }
    }
    forall x | x in EventGpus(a) + EventGpus(b) ensures x in EventGpus(a + b) {
      if x in EventGpus(a) {
        var k :| 0 <= k < |a| && a[k].gpuId == x;
        assert (a + b)[k].gpuId == x;
      } else {
        var k :| 0 <= k < |b| && b[k].gpuId == x;
        assert (a + b)[|a| + k].gpuId == x;
      }
    }
  }

  /** The listings of a prefix of the devices are the prefix of the listings. */
  lemma ListingsOfPrefix(checks: map<string, CheckConfig>, gpus: seq<GPU>, listings: seq<seq<CheckConfig>>, n: nat)
    requires n <= |gpus| && n <= |listings|
    requires ListingsOf(checks, gpus, listings)
    ensures ListingsOf(checks, gpus[..n], listings[..n])
  {
    forall i | 0 <= i < n && Eligible(gpus[..n][i]) ensures IsListing(checks, listings[..n][i]) {
      assert gpus[..n][i] == gpus[i] && listings[..n][i] == listings[i];
    }
  }

  /** A tick only emits events about GPUs that are online and registered. */
  lemma {:induction false} TickEventsEligible(checks: map<string, CheckConfig>, source: GPUSource,
                                              gpus: seq<GPU>, listings: seq<seq<CheckConfig>>)
    requires |listings| == |gpus|
    requires TickRunnable(checks, source, gpus)
    requires ListingsOf(checks, gpus, listings)
    ensures EventGpus(TickEvents(checks, source, gpus, listings)) <= EligibleIds(gpus)
    decreases |gpus|
  {
    if gpus != [] {
      var last := |gpus| - 1;
      var prefix := gpus[..last];
      TickRunnablePrefix(checks, source, gpus, last);
      ListingsOfPrefix(checks, gpus, listings, last);
      TickEventsEligible(checks, source, prefix, listings[..last]);
      var before := TickEvents(checks, source, prefix, listings[..last]);
      var mine := if Eligible(gpus[last]) then GpuEvents(checks, source, gpus[last].id, listings[last]) else [];
      assert TickEvents(checks, source, gpus, listings) == before + mine;
      EligibleIdsSnoc(gpus);
      if Eligible(gpus[last]) {
        ListingNames(checks, listings[last]);
        GpuEventsPushStatus(checks, source, gpus[last].id, listings[last]);
        assert EventGpus(mine) <= {gpus[last].id} by {
          forall x | x in EventGpus(mine) ensures x == gpus[last].id {
            var k :| 0 <= k < |mine| && mine[k].gpuId == x;
            assert mine[k] in mine;
          }
        }
      }
      EventGpusAppend(before, mine);
    }
  }

  /** The store holds `v` under `k`. */
  ghost predicate Holds(store: map<string, CheckResult>, k: string, v: CheckResult) {
    k in store && store[k] == v
  }

  /** The two stores agree on `k`: both lack it, or both hold the same result under it. */
  ghost predicate Agrees(store: map<string, CheckResult>, other: map<string, CheckResult>, k: string) {
    (k in store <==> k in other) && (k in store ==> store[k] == other[k])
  }

  /** Running the listed checks on one GPU leaves under the key of check `n` the classification of
      the snapshot when `n` is listed and `RunCheck` stores it, and otherwise leaves that key as
      it was. */
  lemma {:induction false} StoreAfterAtKey(results: map<string, CheckResult>, checks: map<string, CheckConfig>,
                                           source: GPUSource, gpuId: int, listed: seq<CheckConfig>, n: string)
    requires Runnable(checks, source, gpuId)
    requires ListedFrom(checks, listed)
    ensures if n in NameSet(listed) && Stores(checks, source, n, gpuId)
            then Holds(StoreAfter(results, checks, source, gpuId, listed), ResultKey(n, gpuId),
                       Evaluate(checks[n], n, gpuId, source.getGPU(gpuId).value))
            else Agrees(StoreAfter(results, checks, source, gpuId, listed), results, ResultKey(n, gpuId))
    decreases |listed|
  {
    if listed != [] {
      var prefix, last := listed[..|listed| - 1], listed[|listed| - 1];
      assert ListedFrom(checks, prefix) by {
        forall i | 0 <= i < |prefix| ensures prefix[i] == listed[i] {}
      }
      StoreAfterAtKey(results, checks, source, gpuId, prefix, n);
      if last.name != n && ResultKey(last.name, gpuId) == ResultKey(n, gpuId) {
        ResultKeyInjective(last.name, gpuId, n, gpuId);
      }
    }
  }

  /** Keys that are no check's key for this GPU are left alone. */
  lemma {:induction false} StoreAfterOtherKey(results: map<string, CheckResult>, checks: map<string, CheckConfig>,
                                              source: GPUSource, gpuId: int, listed: seq<CheckConfig>, k: string)
    requires Runnable(checks, source, gpuId)
    requires forall n :: k != ResultKey(n, gpuId)
    ensures Agrees(StoreAfter(results, checks, source, gpuId, listed), results, k)
    decreases |listed|
  {
    if listed != [] {
      StoreAfterOtherKey(results, checks, source, gpuId, listed[..|listed| - 1], k);
    }
  }

  lemma EligibleIdsSnoc(gpus: seq<GPU>)
    requires gpus != []
    ensures var last := gpus[|gpus| - 1];
            EligibleIds(gpus) == EligibleIds(gpus[..|gpus| - 1]) + (if Eligible(last) then {last.id} else {})
  {
    var prefix := gpus[..|gpus| - 1];
    forall x | x in EligibleIds(prefix) ensures x in EligibleIds(gpus) {
      var i :| 0 <= i < |prefix| && Eligible(prefix[i]) && prefix[i].id == x;
      assert gpus[i] == prefix[i];
    }
  }

  lemma KeyOfOtherGpu(n: string, id: int, otherId: int)
    requires id != otherId
    ensures forall m :: ResultKey(n, id) != ResultKey(m, otherId)
  {
    forall m ensures ResultKey(n, id) != ResultKey(m, otherId) {
      if ResultKey(n, id) == ResultKey(m, otherId) {
        ResultKeyInjective(n, id, m, otherId);
      }
    }
  }

  /**
   * After a tick, the key of check `n` on GPU `id` holds that pair's classification exactly when
   * some eligible GPU has that id and `RunCheck` stores the pair; otherwise it is as before the
   * tick (in particular a failed device look-up stores nothing).
   */
  lemma {:induction false} TickResultsAtKey(results: map<string, CheckResult>, checks: map<string, CheckConfig>,
                                            source: GPUSource, gpus: seq<GPU>, listings: seq<seq<CheckConfig>>,
                                            n: string, id: int)
    requires |listings| == |gpus|
    requires TickRunnable(checks, source, gpus)
    requires ListingsOf(checks, gpus, listings)
    ensures if id in EligibleIds(gpus) && Stores(checks, source, n, id)
            then Holds(TickResults(results, checks, source, gpus, listings), ResultKey(n, id),
                       Evaluate(checks[n], n, id, source.getGPU(id).value))
            else Agrees(TickResults(results, checks, source, gpus, listings), results, ResultKey(n, id))
    decreases |gpus|
  {
    if gpus != [] {
      var last := |gpus| - 1;
      var g := gpus[last];
      TickRunnablePrefix(checks, source, gpus, last);
      ListingsOfPrefix(checks, gpus, listings, last);
      TickResultsAtKey(results, checks, source, gpus[..last], listings[..last], n, id);
      EligibleIdsSnoc(gpus);
      var before := TickResults(results, checks, source, gpus[..last], listings[..last]);
      if Eligible(g) {
        ListingNames(checks, listings[last]);
        if g.id == id {
          StoreAfterAtKey(before, checks, source, id, listings[last], n);
        } else {
          KeyOfOtherGpu(n, id, g.id);
          StoreAfterOtherKey(before, checks, source, g.id, listings[last], ResultKey(n, id));
        }
      }
    }
  }

  /** A tick writes no key that is not a check's key for some GPU. */
  lemma {:induction false} TickResultsOtherKey(results: map<string, CheckResult>, checks: map<string, CheckConfig>,
                                               source: GPUSource, gpus: seq<GPU>, listings: seq<seq<CheckConfig>>,
                                               k: string)
    requires |listings| == |gpus|
    requires TickRunnable(checks, source, gpus)
    requires forall n, id :: k != ResultKey(n, id)
    ensures Agrees(TickResults(results, checks, source, gpus, listings), results, k)
    decreases |gpus|
  {
    if gpus != [] {
      var last := |gpus| - 1;
      TickResultsOtherKey(results, checks, source, gpus[..last], listings[..last], k);
      if Eligible(gpus[last]) {
        var before := TickResults(results, checks, source, gpus[..last], listings[..last]);
        StoreAfterOtherKey(before, checks, source, gpus[last].id, listings[last], k);
      }
    }
  }

  // ---------------------------------------------------------------------------------------------
  // The mock device and the default checks
  // ---------------------------------------------------------------------------------------------

  /** The mock reports non-zero denominators, so every registry can run on it. */
  lemma MockAlwaysRunnable(checks: map<string, CheckConfig>, gpus: seq<GPU>)
    ensures forall id :: Runnable(checks, MockManager(), id)
    ensures TickRunnable(checks, MockManager(), gpus)
  {
  }

  /** With the mock telemetry every default check classifies healthy: 35 degrees is below 75,
      10 W of 250 W is 4 percent and 0 GB of 24 GB is 0 percent, both below 80. */
  lemma MockDefaultsHealthy(id: int, n: string)
    requires n in DefaultChecks()
    ensures Runnable(DefaultChecks(), MockManager(), id)
    ensures ResultOf(DefaultChecks(), MockManager(), id, n).status == Healthy
  {
    var checks := DefaultChecks();
    var gpu := MockGPU(id);
    if n == "power_check" {
      assert gpu.powerUsageW / gpu.powerLimitW * 100.0 == 4.0;
    } else if n == "memory_check" {
      assert gpu.usedMemoryGB / gpu.totalMemoryGB * 100.0 == 0.0;
    }
  }

  /** When every enabled check classifies healthy on a GPU, that GPU's share of a tick is only
      "healthy" pushes. */
  lemma AllHealthyShare(checks: map<string, CheckConfig>, source: GPUSource, gpuId: int, listed: seq<CheckConfig>)
    requires Runnable(checks, source, gpuId)
    requires ListedFrom(checks, listed)
    requires forall n :: n in checks && checks[n].enabled ==> ResultOf(checks, source, gpuId, n).status == Healthy
    ensures forall e | e in GpuEvents(checks, source, gpuId, listed) ::
              e.StatusPushed? && e.gpuId == gpuId && e.status == "healthy"
  {
    var ev := GpuEvents(checks, source, gpuId, listed);
    GpuEventsPushStatus(checks, source, gpuId, listed);
    GpuEventsAlerts(checks, source, gpuId, listed);
    forall k | 0 <= k < |ev| ensures ev[k].StatusPushed? {
      if k > 0 {
        assert ev[k - 1] in ev;
      }
    }
  }

  /** A tick of a freshly initialised daemon over the mock's device list pushes "healthy" once
      for each default check on GPU 0, and raises no alert. */
  lemma MockTickAllHealthy(listings: seq<seq<CheckConfig>>)
    requires |listings| == 1
    requires IsListing(DefaultChecks(), listings[0])
    ensures TickRunnable(DefaultChecks(), MockManager(), MockGetAllGPUs())
    ensures forall e | e in TickEvents(DefaultChecks(), MockManager(), MockGetAllGPUs(), listings) ::
              e.StatusPushed? && e.gpuId == 0 && e.status == "healthy"
    ensures forall n :: Pushes(TickEvents(DefaultChecks(), MockManager(), MockGetAllGPUs(), listings), n) ==
                        if n in DefaultChecks() then 1 else 0
  {
    var checks, source, gpus := DefaultChecks(), MockManager(), MockGetAllGPUs();
    DefaultChecksAre();
    MockAlwaysRunnable(checks, gpus);
    assert gpus[..0] == [] && listings[..0] == [];
    assert TickEvents(checks, source, gpus, listings) == GpuEvents(checks, source, 0, listings[0]);
    ListingNames(checks, listings[0]);
    forall n | n in checks ensures ResultOf(checks, source, 0, n).status == Healthy {
      MockDefaultsHealthy(0, n);
    }
    AllHealthyShare(checks, source, 0, listings[0]);
    forall n ensures Pushes(GpuEvents(checks, source, 0, listings[0]), n) == if n in checks then 1 else 0 {
      OncePerEnabledCheck(checks, source, 0, listings[0], n);
    }
  }

  // ---------------------------------------------------------------------------------------------
  // The daemon object
  // ---------------------------------------------------------------------------------------------

  class Daemon {
    const gpuManager: GPUSource
    const healthMonitor: HealthMonitor

    /** `NewDaemon`: the mock manager, shared by the daemon and its health monitor. */
    constructor ()
      ensures gpuManager == MockManager()
      ensures fresh(healthMonitor) && healthMonitor.Valid()
      ensures healthMonitor.checks == map[] && healthMonitor.results == map[]
      ensures healthMonitor.gpuManager == gpuManager
    {
      gpuManager := MockManager();
      healthMonitor := new HealthMonitor(MockManager());
    }

    /** Registers the three default checks, in this order. */
    method Initialize()
      requires healthMonitor.Valid()
      modifies healthMonitor`checks
      ensures healthMonitor.Valid()
      ensures healthMonitor.checks == WithDefaultChecks(old(healthMonitor.checks))
    {
      healthMonitor.RegisterCheck(TemperatureCheck);
      healthMonitor.RegisterCheck(PowerCheck);
      healthMonitor.RegisterCheck(MemoryCheck);
    }

    /** One tick of `RunHealthChecks` on the devices the manager lists. */
    method RunHealthChecks() returns (events: seq<Observation>, ghost listings: seq<seq<CheckConfig>>)
      requires healthMonitor.Valid()
      requires TickRunnable(healthMonitor.checks, healthMonitor.gpuManager, gpuManager.getAllGPUs)
      modifies healthMonitor`results
      ensures |listings| == |gpuManager.getAllGPUs|
      ensures forall i :: 0 <= i < |listings| && Eligible(gpuManager.getAllGPUs[i]) ==>
                IsListing(healthMonitor.checks, listings[i])
      ensures events == TickEvents(healthMonitor.checks, healthMonitor.gpuManager, gpuManager.getAllGPUs, listings)
      ensures healthMonitor.results ==
              TickResults(old(healthMonitor.results), healthMonitor.checks, healthMonitor.gpuManager,
                          gpuManager.getAllGPUs, listings)
    {
      events, listings := RunHealthChecksTick(healthMonitor, gpuManager.getAllGPUs);
    }
  }
}
