/** What one stored reading may be counted as (hub/fleet_power.go,
    hub/fleet_power_total.go). Watts are reals. */
module FleetReading {
  import opened Common

  /** Backend labels; anything this hub does not know is `Other`. */
  datatype Source = Unlabelled | Psys | Package | RaplDram | Battery | IpmiDcmi | Hwmon(chip: string) | EstimateUtil | Other(name: string)

  /** The scalar domains, the GPU total, and the derived CPU and GPU view. */
  datatype Domain = System | Cpu | Dram | Gpu | CpuGpu

  datatype Kind = Measured | Estimated | Unknown

  datatype Stats = Stats(mean: Option<real>, peak: Option<real>, samples: int)

  /** A scalar domain of a payload: its statistics and the label recorded for it. */
  datatype Scalar = Scalar(stats: Option<Stats>, source: Source)

  datatype Payload = Payload(system: Scalar, cpu: Scalar, dram: Scalar, gpuTotal: Option<Stats>, gapBefore: bool)

  datatype Reason = Absent | Unreadable | SourceUnverified | IncompleteComponents

  datatype Label = Named(source: Source) | GpuLabel | Derived(cpu: Source)

  datatype Reading = Counted(watts: real, samples: int, backend: Label, kind: Kind) | Refused(reason: Reason)

  const MAX_SAMPLES := 1_000_000
  const MAX_WATTS_GPU_TOTAL: real := 1000000.0
  const MAX_WATTS_DOMAIN: real := 100000.0

  // ---- classification ----

  /** Measures something real that is not demonstrably this machine. */
  predicate ScopeUnverified(s: Source) {
    s == Battery || s.Hwmon?
  }

  predicate MeasuresDomain(d: Domain, s: Source) {
    match s
    case Psys => d == System
    case IpmiDcmi => d == System
    case Package => d == Cpu
    case RaplDram => d == Dram
    case _ => false
  }

  function Classify(d: Domain, s: Source): Kind {
    if d == Gpu then Measured
    else if s == Unlabelled then (if d == Cpu then Measured else Unknown)
    else if s == EstimateUtil then Estimated
    else if d == System && ScopeUnverified(s) then Unknown
    else if MeasuresDomain(d, s) then Measured
    else if s.Hwmon? then Measured
    else Unknown
  }

  predicate FrozenCounter(d: Domain, s: Source) {
    s == Psys || s == Package || s == RaplDram || (s == Unlabelled && d == Cpu)
  }

  predicate AllZero(st: Stats) {
    st.samples > 0 && st.mean == Some(0.0) && st.peak == Some(0.0)
  }

  /** An all-zero window of an energy counter cannot be told from a frozen one. */
  function KindFor(d: Domain, s: Source, st: Stats): Kind {
    if Classify(d, s) == Measured && AllZero(st) && FrozenCounter(d, s) then Unknown else Classify(d, s)
  }

  // ---- one reading ----

  predicate InRange(w: Option<real>, max: real) {
    w.Some? ==> 0.0 <= w.value <= max
  }

  predicate ValidStats(st: Stats, expected: int, max: real) {
    && 0 <= st.samples <= MAX_SAMPLES
    && (st.samples == 0 ==> st.mean.None? && st.peak.None?)
    && (st.samples > 0 ==> st.mean.Some? && st.peak.Some?)
    && st.samples <= expected
    && InRange(st.mean, max) && InRange(st.peak, max)
    && (st.mean.Some? && st.peak.Some? ==> st.mean.value <= st.peak.value)
  }

  function ScalarOf(p: Payload, d: Domain): Scalar {
    match d
    case System => p.system
    case Cpu => p.cpu
    case Dram => p.dram
    case _ => Scalar(p.gpuTotal, Unlabelled)
  }

  function MaxWatts(d: Domain): real {
    if d == Gpu then MAX_WATTS_GPU_TOTAL else MAX_WATTS_DOMAIN
  }

  function LabelOf(d: Domain, s: Source): Label {
    if s == Unlabelled && d == Gpu then GpuLabel else Named(s)
  }

  /** A sensor domain's own reading. */
  function SensorReading(p: Payload, d: Domain, expected: int): Reading
    requires d != CpuGpu
  {
    var x := ScalarOf(p, d);
    if x.stats.None? || x.stats.value.samples <= 0 || x.stats.value.mean.None? then Refused(Absent)
    else if !ValidStats(x.stats.value, expected, MaxWatts(d)) then Refused(Unreadable)
    else Counted(x.stats.value.mean.value, x.stats.value.samples, LabelOf(d, x.source), KindFor(d, x.source, x.stats.value))
  }

  /** The derived view: both components measured, each over the complete window. */
  function ReadingFor(p: Payload, d: Domain, expected: int): Reading {
    if d != CpuGpu then SensorReading(p, d, expected) else
      var cpu, gpu := SensorReading(p, Cpu, expected), SensorReading(p, Gpu, expected);
      if cpu.Refused? then cpu
      else if cpu.kind != Measured then Refused(SourceUnverified)
      else if gpu.Refused? then gpu
      else if gpu.kind != Measured then Refused(SourceUnverified)
      else if expected <= 0 || cpu.samples != expected || gpu.samples != expected then Refused(IncompleteComponents)
      else Counted(cpu.watts + gpu.watts, expected, Derived(p.cpu.source), Measured)
  }

  // ---- what may be added up ----

  /** The only ways into the measured column: a backend that measures the domain it is
      labelled with, and whose counter moved if it could have been frozen. */
  lemma MeasuredMeans(p: Payload, d: Domain, expected: int)
    requires ReadingFor(p, d, expected).Counted? && ReadingFor(p, d, expected).kind == Measured
    ensures d == System ==> (p.system.source == Psys && !AllZero(p.system.stats.value)) || p.system.source == IpmiDcmi
    ensures d == Dram ==> (p.dram.source == RaplDram && !AllZero(p.dram.stats.value)) || p.dram.source.Hwmon?
    ensures d == Cpu ==> ((p.cpu.source == Package || p.cpu.source == Unlabelled) && !AllZero(p.cpu.stats.value)) || p.cpu.source.Hwmon?
    ensures d == CpuGpu ==>
              && ReadingFor(p, Cpu, expected).Counted? && ReadingFor(p, Cpu, expected).kind == Measured
              && ReadingFor(p, Gpu, expected).Counted?
              && p.cpu.stats.value.samples == expected == p.gpuTotal.value.samples
              && ReadingFor(p, d, expected).watts == p.cpu.stats.value.mean.value + p.gpuTotal.value.mean.value
  {
  }

  /** Statistics of a window that was sampled: no more than expected, and in range. */
  predicate Sampled(st: Option<Stats>, expected: int, max: real) {
    && st.Some? && st.value.mean.Some? && st.value.peak.Some?
    && 1 <= st.value.samples <= expected && st.value.samples <= 1_000_000
    && 0.0 <= st.value.mean.value <= st.value.peak.value <= max
  }

  /** A backend that measures its domain, whose counter was not frozen if it can be. */
  predicate Measures(d: Domain, s: Source, st: Stats)
    requires d != CpuGpu
  {
    match d
    case System => s == IpmiDcmi || (s == Psys && !AllZero(st))
    case Cpu => s.Hwmon? || ((s == Package || s == Unlabelled) && !AllZero(st))
    case Dram => s.Hwmon? || (s == RaplDram && !AllZero(st))
    case Gpu => true
  }

  predicate MeasuredHere(p: Payload, d: Domain, expected: int)
    requires d != CpuGpu
  {
    var x := ScalarOf(p, d);
    Sampled(x.stats, expected, if d == Gpu then 1000000.0 else 100000.0) && Measures(d, x.source, x.stats.value)
  }

  /** A reading is measured exactly then: a sampled window of a backend that measures the
      domain; and for the derived view, both components, each over the whole window. It
      shows the mean, or the sum of both. */
  lemma MeasuredExactly(p: Payload, d: Domain, expected: int)
    ensures var r := ReadingFor(p, d, expected);
            d != CpuGpu ==>
              && (r.Counted? && r.kind == Measured <==> MeasuredHere(p, d, expected))
              && (MeasuredHere(p, d, expected) ==>
                    r.watts == ScalarOf(p, d).stats.value.mean.value && r.samples == ScalarOf(p, d).stats.value.samples)
    ensures var r := ReadingFor(p, CpuGpu, expected);
            && (r.Counted? <==>
                  && MeasuredHere(p, Cpu, expected) && MeasuredHere(p, Gpu, expected)
                  && p.cpu.stats.value.samples == expected && p.gpuTotal.value.samples == expected)
            && (r.Counted? ==> r.kind == Measured && r.samples == expected
                               && r.watts == p.cpu.stats.value.mean.value + p.gpuTotal.value.mean.value)
  {
  }

  /** A sampled window that is not measured is still shown, as what it is; one that was
      not sampled is refused as absent, and one out of range as unreadable. */
  lemma RefusedExactly(p: Payload, d: Domain, expected: int)
    requires d != CpuGpu
    ensures var (x, r) := (ScalarOf(p, d), ReadingFor(p, d, expected));
            var max := if d == Gpu then 1000000.0 else 100000.0;
            && (r.Counted? <==> Sampled(x.stats, expected, max))
            && (r == Refused(Absent) <==> x.stats.None? || x.stats.value.samples <= 0 || x.stats.value.mean.None?)
            && (r.Counted? || r == Refused(Absent) || r == Refused(Unreadable))
  {
  }

  /** A modelled figure is never measured, and nothing else is ever estimated. */
  lemma EstimatesStayApart(p: Payload, d: Domain, expected: int)
    requires d != CpuGpu && d != Gpu && ReadingFor(p, d, expected).Counted?
    ensures ReadingFor(p, d, expected).kind == Estimated <==> ScalarOf(p, d).source == EstimateUtil
    ensures ScalarOf(p, d).source.Other? ==> ReadingFor(p, d, expected).kind == Unknown
  {
  }

  /** What is counted is a valid mean over samples that were taken. */
  lemma CountedIsValid(p: Payload, d: Domain, expected: int)
    requires ReadingFor(p, d, expected).Counted?
    ensures var r := ReadingFor(p, d, expected); 0.0 <= r.watts <= 1100000.0 && 1 <= r.samples <= expected
  {
  }
}
