/**
 * The part of pkg/metrics that `UpdateHealthCheckStatus` computes before it hands a sample to
 * Prometheus: the gauge value of a status string and the two labels.
 */
module Metrics {
  import Decimal

  /** The gauge value of a status string; anything unrecognised reads as unknown. */
  function HealthStatusValue(status: string): (v: real)
    ensures v == 1.0 <==> status == "healthy"
    ensures v == 0.5 <==> status == "degraded"
    ensures v == 0.0 <==> status == "unhealthy"
    ensures v == -1.0 <==> status != "healthy" && status != "degraded" && status != "unhealthy"
  {
    match status
    case "healthy" => 1.0
    case "degraded" => 0.5
    case "unhealthy" => 0.0
    case _ => -1.0
  }

  /** Reads a gauge value back as the status it encodes; "unknown" for everything else. */
  function StatusOfValue(v: real): string {
    if v == 1.0 then "healthy"
    else if v == 0.5 then "degraded"
    else if v == 0.0 then "unhealthy"
    else "unknown"
  }

  /** The encoding loses nothing for the four tiers, and orders them healthiest first. */
  lemma StatusValueRoundTrip(status: string)
    requires status in ["healthy", "degraded", "unhealthy", "unknown"]
    ensures StatusOfValue(HealthStatusValue(status)) == status
  {
  }

  /** Healthy > degraded > unhealthy > any other string. */
  lemma StatusValueDecreasing(other: string)
    requires other != "healthy" && other != "degraded" && other != "unhealthy"
    ensures HealthStatusValue("healthy") > HealthStatusValue("degraded")
              > HealthStatusValue("unhealthy") > HealthStatusValue(other)
  {
  }

  /** Go's `rune(x)`: the low 32 bits of `x`, read as a signed number. */
  function ToInt32(x: int): (v: int)
    ensures -0x8000_0000 <= v < 0x8000_0000
    ensures (v - x) % 0x1_0000_0000 == 0
  {
    var low := x % 0x1_0000_0000;
    if low >= 0x8000_0000 then low - 0x1_0000_0000 else low
  }

  /** The code points Go's `string(rune)` encodes as themselves; every other value becomes U+FFFD. */
  predicate IsScalarValue(v: int) {
    (0 <= v < 0xD800) || (0xE000 <= v <= 0x10_FFFF)
  }

  /** The `gpu_id` label as written: `string(rune(gpuID + '0'))`, a single character. */
  function GpuIdLabel(gpuId: int): (text: string)
    ensures |text| == 1
  {
    var v := ToInt32(gpuId + '0' as int);
    if IsScalarValue(v) then [v as char] else "\U{FFFD}"
  }

  /** For ids 0 to 9 the label is the decimal text of the id. */
  lemma GpuIdLabelSmallIds(gpuId: int)
    requires 0 <= gpuId <= 9
    ensures GpuIdLabel(gpuId) == Decimal.Itoa(gpuId)
  {
  }

  /** Within the 32-bit range, the label is a decimal digit exactly for the ids 0 to 9. */
  lemma GpuIdLabelIsDigitOnlyBelowTen(gpuId: int)
    requires -0x8000_0000 <= gpuId + 48 < 0x8000_0000
    ensures Decimal.IsDigit(GpuIdLabel(gpuId)[0]) <==> 0 <= gpuId <= 9
  {
    assert ToInt32(gpuId + 48) == gpuId + 48;
  }

  /** The label of GPU 10 is ":" where its decimal text is "10". */
  lemma GpuIdLabelOfTen()
    ensures GpuIdLabel(10) == ":" && Decimal.Itoa(10) == "10"
  {
  }

  /** Ids that differ by 2^32 share a label, so the label does not identify the GPU. */
  lemma GpuIdLabelWraps(gpuId: int)
    ensures GpuIdLabel(gpuId) == GpuIdLabel(gpuId + 0x1_0000_0000)
  {
    assert ToInt32(gpuId + 48) == ToInt32(gpuId + 0x1_0000_0000 + 48);
  }

  /** The label the code evidently intends: the decimal text of the id. */
  function DecimalGpuIdLabel(gpuId: int): (text: string)
    ensures |text| >= 1
  {
    Decimal.Itoa(gpuId)
  }

  /** Distinct GPUs get distinct decimal labels. */
  lemma DecimalGpuIdLabelInjective(a: int, b: int)
    requires DecimalGpuIdLabel(a) == DecimalGpuIdLabel(b)
    ensures a == b
  {
    Decimal.ItoaInjective(a, b);
  }

  /** One observation of the health-check gauge: its labels and value. */
  datatype Sample = Sample(labels: map<string, string>, value: real)

  /** `UpdateHealthCheckStatus` up to the Prometheus call: the value depends on the status alone. */
  function HealthCheckSample(gpuId: int, checkName: string, status: string): (s: Sample)
    ensures s.labels.Keys == {"gpu_id", "check_name"}
    ensures s.labels["check_name"] == checkName && s.labels["gpu_id"] == GpuIdLabel(gpuId)
    ensures StatusOfValue(s.value) == if status in ["healthy", "degraded", "unhealthy"] then status else "unknown"
  {
    Sample(map["gpu_id" := GpuIdLabel(gpuId), "check_name" := checkName], HealthStatusValue(status))
  }
}
