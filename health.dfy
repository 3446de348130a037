/**
 * The health-check engine of pkg/health: a registry of check configurations keyed by name, a
 * result store keyed by `"<check>:<gpu id>"`, the three threshold classifiers and `RunCheck`,
 * which filters, looks the device up, classifies and stores.
 */
module Health {
  import opened Wrappers
  import Decimal

  /** The four health tiers, with the strings the Go `Status` constants hold. */
  datatype Status = Healthy | Degraded | Unhealthy | Unknown {
    function Text(): (s: string)
      ensures |s| > 0
    {
      match this
      case Healthy => "healthy"
      case Degraded => "degraded"
      case Unhealthy => "unhealthy"
      case Unknown => "unknown"
    }
  }

  /** `CheckConfig`; `checkType` is free text ("temperature", "power", "memory", anything else). */
  datatype CheckConfig = CheckConfig(
    name: string,
    checkType: string,
    intervalSec: int,
    warningThreshold: real,
    criticalThreshold: real,
    enabled: bool)

  /** The device snapshot the engine reads (`health.GPU`). */
  datatype GPU = GPU(
    id: int,
    name: string,
    temperatureC: real,
    powerUsageW: real,
    powerLimitW: real,
    usedMemoryGB: real,
    totalMemoryGB: real,
    online: bool,
    registered: bool)

  /**
   * The `GPUInterface` collaborator: the list the scheduler walks and the per-id lookup that
   * `RunCheck` calls, which may fail with an error text.
   */
  datatype GPUSource = GPUSource(getAllGPUs: seq<GPU>, getGPU: int -> Result<GPU, string>)

  /** What each result's message reports (the quantities, not their `%.1f` rendering). */
  datatype Message =
    | CriticalTemperature(tempC: real, critical: real)
    | HighTemperature(tempC: real, warning: real)
    | NormalTemperature(tempC: real)
    | CriticalPower(powerW: real, percent: real, limitW: real)
    | HighPower(powerW: real, percent: real, limitW: real)
    | NormalPower(powerW: real, percent: real, limitW: real)
    | CriticalMemory(usedGB: real, totalGB: real, percentUsed: real)
    | HighMemory(usedGB: real, totalGB: real, percentUsed: real)
    | NormalMemory(usedGB: real, totalGB: real, percentUsed: real)
    | GpuError(error: string)
    | UnknownCheckType(checkType: string)

  /** `CheckResult` without its timestamp. */
  datatype CheckResult = CheckResult(
    checkName: string,
    gpuId: int,
    status: Status,
    value: real,
    threshold: real,
    message: Message)

  /** The errors the registry and the store return. */
  datatype HealthError =
    | CheckNotFound(name: string)
    | CheckNotRegistered(name: string)
    | CheckDisabled(name: string)
    | NoResult(checkName: string, gpuId: int)

  // ---------------------------------------------------------------------------------------------
  // Classifiers
  // ---------------------------------------------------------------------------------------------

  /** `(part / whole) * 100`. */
  function Percent(part: real, whole: real): real
    requires whole != 0.0
  {
    (part / whole) * 100.0
  }

  /** `checkTemperature`: critical first, then warning, both inclusive. */
  function CheckTemperature(config: CheckConfig, gpuId: int, tempC: real): (r: CheckResult)
    ensures r.checkName == config.name && r.gpuId == gpuId
    ensures r.value == tempC && r.threshold == config.criticalThreshold
    ensures r.status == Unhealthy <==> tempC >= config.criticalThreshold
    ensures r.status == Degraded <==> config.warningThreshold <= tempC < config.criticalThreshold
    ensures r.status == Healthy <==> tempC < config.warningThreshold && tempC < config.criticalThreshold
  {
    var critical, warning := config.criticalThreshold, config.warningThreshold;
    if tempC >= critical then
      CheckResult(config.name, gpuId, Unhealthy, tempC, critical, CriticalTemperature(tempC, critical))
    else if tempC >= warning then
      CheckResult(config.name, gpuId, Degraded, tempC, critical, HighTemperature(tempC, warning))
    else
      CheckResult(config.name, gpuId, Healthy, tempC, critical, NormalTemperature(tempC))
  }

  /** `checkPower`: classifies the percentage of the power limit, reports the warning threshold. */
  function CheckPower(config: CheckConfig, gpuId: int, powerW: real, limitW: real): (r: CheckResult)
    requires limitW != 0.0
    ensures r.checkName == config.name && r.gpuId == gpuId
    ensures r.value == powerW && r.threshold == config.warningThreshold
    ensures r.status == Unhealthy <==> powerW / limitW * 100.0 >= config.criticalThreshold
    ensures r.status == Degraded <==>
              config.warningThreshold <= powerW / limitW * 100.0 < config.criticalThreshold
    ensures r.status == Healthy <==>
              powerW / limitW * 100.0 < config.warningThreshold &&
              powerW / limitW * 100.0 < config.criticalThreshold
  {
    var percent := Percent(powerW, limitW);
    var critical, warning := config.criticalThreshold, config.warningThreshold;
    if percent >= critical then
      CheckResult(config.name, gpuId, Unhealthy, powerW, warning, CriticalPower(powerW, percent, limitW))
    else if percent >= warning then
      CheckResult(config.name, gpuId, Degraded, powerW, warning, HighPower(powerW, percent, limitW))
    else
      CheckResult(config.name, gpuId, Healthy, powerW, warning, NormalPower(powerW, percent, limitW))
  }

  /**
   * `checkMemory`: the code compares the AVAILABLE percentage against `100 - threshold`; the
   * contract states the equivalent comparison of the USED percentage against the threshold.
   */
  function CheckMemory(config: CheckConfig, gpuId: int, usedGB: real, totalGB: real): (r: CheckResult)
    requires totalGB != 0.0
    ensures r.checkName == config.name && r.gpuId == gpuId
    ensures r.value == usedGB && r.threshold == 100.0 - config.warningThreshold
    ensures r.status == Unhealthy <==> usedGB / totalGB * 100.0 >= config.criticalThreshold
    ensures r.status == Degraded <==>
              config.warningThreshold <= usedGB / totalGB * 100.0 < config.criticalThreshold
    ensures r.status == Healthy <==>
              usedGB / totalGB * 100.0 < config.warningThreshold &&
              usedGB / totalGB * 100.0 < config.criticalThreshold
  {
    var percentUsed := Percent(usedGB, totalGB);
    var threshold := 100.0 - config.warningThreshold;
    var availablePercent := 100.0 - percentUsed;
    if availablePercent <= 100.0 - config.criticalThreshold then
      CheckResult(config.name, gpuId, Unhealthy, usedGB, threshold, CriticalMemory(usedGB, totalGB, percentUsed))
    else if availablePercent <= 100.0 - config.warningThreshold then
      CheckResult(config.name, gpuId, Degraded, usedGB, threshold, HighMemory(usedGB, totalGB, percentUsed))
    else
      CheckResult(config.name, gpuId, Healthy, usedGB, threshold, NormalMemory(usedGB, totalGB, percentUsed))
  }

  /** The check types `RunCheck` dispatches on; every other type classifies as unknown. */
  predicate IsKnownType(checkType: string) {
    checkType == "temperature" || checkType == "power" || checkType == "memory"
  }

  /** The snapshot has the non-zero denominator that the given check divides by. */
  predicate Evaluable(config: CheckConfig, gpu: GPU) {
    && (config.checkType == "power" ==> gpu.powerLimitW != 0.0)
    && (config.checkType == "memory" ==> gpu.totalMemoryGB != 0.0)
  }

  /** The `switch check.CheckType` of `RunCheck` once the device was found. */
  function Evaluate(config: CheckConfig, checkName: string, gpuId: int, gpu: GPU): (r: CheckResult)
    requires Evaluable(config, gpu)
    ensures r.gpuId == gpuId
    ensures r.status == Unknown <==> !IsKnownType(config.checkType)
    ensures !IsKnownType(config.checkType) ==>
              r == CheckResult(checkName, gpuId, Unknown, 0.0, 0.0, UnknownCheckType(config.checkType))
    ensures IsKnownType(config.checkType) ==> r.checkName == config.name
  {
    if config.checkType == "temperature" then CheckTemperature(config, gpuId, gpu.temperatureC)
    else if config.checkType == "power" then CheckPower(config, gpuId, gpu.powerUsageW, gpu.powerLimitW)
    else if config.checkType == "memory" then CheckMemory(config, gpuId, gpu.usedMemoryGB, gpu.totalMemoryGB)
    else CheckResult(checkName, gpuId, Unknown, 0.0, 0.0, UnknownCheckType(config.checkType))
  }

  // ---------------------------------------------------------------------------------------------
  // Result keys
  // ---------------------------------------------------------------------------------------------

  /** `fmt.Sprintf("%s:%d", checkName, gpuID)`. */
  function ResultKey(checkName: string, gpuId: int): string {
    checkName + ":" + Decimal.Itoa(gpuId)
  }

  /** The index of the last colon of `k`, or -1. */
  function LastColon(k: string): int
  {
    if k == [] then -1
    else if k[|k| - 1] == ':' then |k| - 1
    else LastColon(k[..|k| - 1])
  }

  lemma {:induction false} LastColonOfKey(name: string, suffix: string)
    requires ':' !in suffix
    ensures LastColon(name + ":" + suffix) == |name|
    decreases |suffix|
  {
    var k := name + ":" + suffix;
    if suffix != [] {
      var shorter := suffix[..|suffix| - 1];
      assert k[..|k| - 1] == name + ":" + shorter;
      LastColonOfKey(name, shorter);
    }
  }

  /**
   * The key encoding is injective although check names may themselves hold colons: the `%d`
   * suffix never does, so the last colon of a key separates the two parts.
   */
  lemma ResultKeyInjective(n1: string, i1: int, n2: string, i2: int)
    requires ResultKey(n1, i1) == ResultKey(n2, i2)
    ensures n1 == n2 && i1 == i2
  {
    var k := ResultKey(n1, i1);
    var s1, s2 := Decimal.Itoa(i1), Decimal.Itoa(i2);
    Decimal.ItoaHasNoColon(i1);
    Decimal.ItoaHasNoColon(i2);
    LastColonOfKey(n1, s1);
    LastColonOfKey(n2, s2);
    assert |n1| == |n2|;
    assert n1 == k[..|n1|] == n2;
    assert s1 == k[|n1| + 1..] == s2;
    Decimal.ItoaInjective(i1, i2);
  }

  /** For one GPU, distinct check names give distinct keys. */
  lemma ResultKeyInjectiveOnName(gpuId: int)
    ensures forall n1, n2 :: ResultKey(n1, gpuId) == ResultKey(n2, gpuId) ==> n1 == n2
  {
    forall n1, n2 | ResultKey(n1, gpuId) == ResultKey(n2, gpuId)
      ensures n1 == n2
    {
      ResultKeyInjective(n1, gpuId, n2, gpuId);
    }
  }

  /** `GetLatestResult` as a function of the store. */
  function LatestResult(results: map<string, CheckResult>, checkName: string, gpuId: int)
    : Result<CheckResult, HealthError>
  {
    var key := ResultKey(checkName, gpuId);
    if key in results then Ok(results[key]) else Err(NoResult(checkName, gpuId))
  }

  /** Storing a result under one (check, GPU) pair is seen by that pair and by no other. */
  lemma LatestAfterStore(results: map<string, CheckResult>, checkName: string, gpuId: int,
                         r: CheckResult, otherName: string, otherId: int)
    ensures LatestResult(results[ResultKey(checkName, gpuId) := r], otherName, otherId) ==
            if otherName == checkName && otherId == gpuId then Ok(r)
            else LatestResult(results, otherName, otherId)
  {
    if ResultKey(otherName, otherId) == ResultKey(checkName, gpuId) {
      ResultKeyInjective(otherName, otherId, checkName, gpuId);
    }
  }

  // ---------------------------------------------------------------------------------------------
  // RunCheck as a function of the registry and the device source
  // ---------------------------------------------------------------------------------------------

  /** What `RunCheck` needs to avoid a division by zero: the device it would classify has the
      denominator its check divides by. Unknown, disabled and failed look-ups need nothing. */
  predicate CanRun(checks: map<string, CheckConfig>, source: GPUSource, checkName: string, gpuId: int) {
    checkName in checks && checks[checkName].enabled && source.getGPU(gpuId).Ok? ==>
      Evaluable(checks[checkName], source.getGPU(gpuId).value)
  }

  /** `RunCheck` writes to the store exactly when the check is registered, enabled and the device
      look-up succeeded (a failed look-up returns before the write). */
  predicate Stores(checks: map<string, CheckConfig>, source: GPUSource, checkName: string, gpuId: int) {
    checkName in checks && checks[checkName].enabled && source.getGPU(gpuId).Ok?
  }

  /** The value `RunCheck(checkName, gpuId)` returns. */
  function RunCheckOutcome(checks: map<string, CheckConfig>, source: GPUSource, checkName: string, gpuId: int)
    : (r: Result<CheckResult, HealthError>)
    requires CanRun(checks, source, checkName, gpuId)
    ensures checkName !in checks ==> r == Err(CheckNotRegistered(checkName))
    ensures checkName in checks && !checks[checkName].enabled ==> r == Err(CheckDisabled(checkName))
    ensures r.Ok? <==> checkName in checks && checks[checkName].enabled
    ensures r.Ok? ==> r.value.gpuId == gpuId
    ensures r.Ok? && source.getGPU(gpuId).Err? ==>
              r.value == CheckResult(checkName, gpuId, Unhealthy, 0.0, 0.0, GpuError(source.getGPU(gpuId).error))
    ensures Stores(checks, source, checkName, gpuId) ==>
              r.Ok? && r.value == Evaluate(checks[checkName], checkName, gpuId, source.getGPU(gpuId).value)
  {
    if checkName !in checks then Err(CheckNotRegistered(checkName))
    else if !checks[checkName].enabled then Err(CheckDisabled(checkName))
    else match source.getGPU(gpuId)
      case Err(e) => Ok(CheckResult(checkName, gpuId, Unhealthy, 0.0, 0.0, GpuError(e)))
      case Ok(gpu) => Ok(Evaluate(checks[checkName], checkName, gpuId, gpu))
  }

  /** Every registry a `HealthMonitor` builds files each config under its own name. */
  ghost predicate NamesAgree(checks: map<string, CheckConfig>) {
    forall n :: n in checks ==> checks[n].name == n
  }

  /** `ListChecks`'s promise: every registered config exactly once, in some order. */
  ghost predicate IsListing(checks: map<string, CheckConfig>, listed: seq<CheckConfig>) {
    && |listed| == |checks|
    && (forall i :: 0 <= i < |listed| ==> listed[i].name in checks && checks[listed[i].name] == listed[i])
    && (forall i, j :: 0 <= i < j < |listed| ==> listed[i].name != listed[j].name)
    && (forall n :: n in checks ==> exists i :: 0 <= i < |listed| && listed[i].name == n)
  }

  // ---------------------------------------------------------------------------------------------
  // The monitor
  // ---------------------------------------------------------------------------------------------

  class HealthMonitor {
    var checks: map<string, CheckConfig>
    var results: map<string, CheckResult>
    const gpuManager: GPUSource

    ghost predicate Valid()
      reads this
    {
      NamesAgree(checks)
    }

    /** `NewHealthMonitor`. */
    constructor (gpuManager: GPUSource)
      ensures Valid()
      ensures checks == map[] && results == map[]
      ensures this.gpuManager == gpuManager
    {
      checks := map[];
      results := map[];
      this.gpuManager := gpuManager;
    }

    /** Inserts or overwrites the config under its name; nothing else changes. */
    method RegisterCheck(config: CheckConfig)
      requires Valid()
      modifies this`checks
      ensures Valid()
      ensures checks == old(checks)[config.name := config]
    {
      checks := checks[config.name := config];
    }

    method GetCheck(name: string) returns (r: Result<CheckConfig, HealthError>)
      ensures name in checks ==> r == Ok(checks[name])
      ensures name !in checks ==> r == Err(CheckNotFound(name))
    {
      if name in checks {
        r := Ok(checks[name]);
      } else {
        r := Err(CheckNotFound(name));
      }
    }

    /** Walks the registry in an unspecified order, as ranging over a Go map does. */
    method ListChecks() returns (listed: seq<CheckConfig>)
      requires Valid()
      ensures IsListing(checks, listed)
    {
      listed := [];
      var remaining := checks.Keys;
      while remaining != {}
        invariant remaining <= checks.Keys
        invariant |listed| + |remaining| == |checks|
        invariant forall i :: 0 <= i < |listed| ==>
                    listed[i].name in checks && checks[listed[i].name] == listed[i] &&
                    listed[i].name !in remaining
        invariant forall i, j :: 0 <= i < j < |listed| ==> listed[i].name != listed[j].name
        invariant forall n :: n in checks && n !in remaining ==>
                    exists i :: 0 <= i < |listed| && listed[i].name == n
        decreases remaining
      {
        var name :| name in remaining;
        var next := listed + [checks[name]];
        forall n | n in checks && n !in remaining - {name}
          ensures exists i :: 0 <= i < |next| && next[i].name == n
        {
          if n == name {
            assert next[|listed|].name == n;
          } else {
            var i :| 0 <= i < |listed| && listed[i].name == n;
            assert next[i].name == n;
          }
        }
        listed, remaining := next, remaining - {name};
      }
    }

    /** `RunCheck`: returns `RunCheckOutcome` and writes the store only when `Stores` holds. */
    method RunCheck(checkName: string, gpuId: int) returns (r: Result<CheckResult, HealthError>)
      requires CanRun(checks, gpuManager, checkName, gpuId)
      modifies this`results
      ensures r == RunCheckOutcome(checks, gpuManager, checkName, gpuId)
      ensures results ==
              if Stores(checks, gpuManager, checkName, gpuId)
              then old(results)[ResultKey(checkName, gpuId) := r.value]
              else old(results)
    {
      if checkName !in checks {
        return Err(CheckNotRegistered(checkName));
      }
      var check := checks[checkName];
      if !check.enabled {
        return Err(CheckDisabled(checkName));
      }
      var lookup := gpuManager.getGPU(gpuId);
      if lookup.Err? {
        return Ok(CheckResult(checkName, gpuId, Unhealthy, 0.0, 0.0, GpuError(lookup.error)));
      }
      var result := Evaluate(check, checkName, gpuId, lookup.value);
      results := results[ResultKey(checkName, gpuId) := result];
      r := Ok(result);
    }

    method GetLatestResult(checkName: string, gpuId: int) returns (r: Result<CheckResult, HealthError>)
      ensures r == LatestResult(results, checkName, gpuId)
      ensures r.Ok? <==> ResultKey(checkName, gpuId) in results
    {
      var key := ResultKey(checkName, gpuId);
      if key in results {
        r := Ok(results[key]);
      } else {
        r := Err(NoResult(checkName, gpuId));
      }
    }

    /** Copies the store entry by entry; the copy has exactly the store's keys and values. */
    method GetAllResults() returns (copy: map<string, CheckResult>)
      ensures copy == results
    {
      copy := map[];
      var remaining := results.Keys;
      while remaining != {}
        invariant remaining <= results.Keys
        invariant copy.Keys == results.Keys - remaining
        invariant forall k :: k in copy ==> copy[k] == results[k]
        decreases remaining
      {
        var key :| key in remaining;
        copy := copy[key := results[key]];
        remaining := remaining - {key};
      }
    }
  }
}
