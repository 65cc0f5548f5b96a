/** The gauges of the governor's metrics: measurements that may be absent, kept only if they make sense
    (agent/internal/governor/metrics.go). */
module Gauging {
  import opened Floats

  datatype ValidUint = ValidUint(value: nat, valid: bool)

  datatype ValidFloat = ValidFloat(value: Float, valid: bool)

  const NO_UINT := ValidUint(0, false)
  const NO_FLOAT := ValidFloat(Num(0.0), false)

  datatype Gauges = Gauges(cpu: ValidFloat, rss: ValidUint, depth: ValidUint, capacity: ValidUint,
                           oldestAge: ValidFloat,
                           saturation: ValidFloat, used: ValidUint, write: ValidFloat)

  const NO_GAUGES := Gauges(NO_FLOAT, NO_UINT, NO_UINT, NO_UINT, NO_FLOAT, NO_FLOAT, NO_UINT, NO_FLOAT)

  predicate CpuAccepted(v: ValidFloat) {
    v.valid ==> !v.value.NaN? && !Less(v.value, Num(0.0)) && !Less(Num(100.0), v.value)
  }

  predicate NotNegative(v: ValidFloat) {
    v.valid ==> !v.value.NaN? && !Less(v.value, Num(0.0))
  }

  predicate QueueAccepted(depth: ValidUint, capacity: ValidUint, oldestAge: ValidFloat) {
    && (depth.valid && capacity.valid ==> depth.value <= capacity.value)
    && (capacity.valid ==> capacity.value != 0)
    && NotNegative(oldestAge)
  }

  /** Each update is taken whole or not at all. */
  function UpdateCPU(g: Gauges, v: ValidFloat): Gauges {
    if CpuAccepted(v) then g.(cpu := v) else g
  }

  function UpdateQueue(g: Gauges, depth: ValidUint, capacity: ValidUint, oldestAge: ValidFloat): Gauges {
    if !QueueAccepted(depth, capacity, oldestAge) then g
    else
      g.(depth := depth, capacity := capacity, oldestAge := oldestAge,
         saturation := if depth.valid && capacity.valid
                       then ValidFloat(Num(depth.value as real / capacity.value as real), true)
                       else NO_FLOAT)
  }

  function UpdateDisk(g: Gauges, used: ValidUint, write: ValidFloat): Gauges {
    if NotNegative(write) then g.(used := used, write := write) else g
  }

  /** What every reader of the gauges may rely on. */
  predicate Sane(g: Gauges) {
    && CpuAccepted(g.cpu) && NotNegative(g.write)
    && QueueAccepted(g.depth, g.capacity, g.oldestAge)
    && (g.saturation.valid <==> g.depth.valid && g.capacity.valid)
    && (g.saturation.valid ==>
          && g.saturation.value.Num?
          && 0.0 <= g.saturation.value.r <= 1.0
          && g.saturation.value.r * g.capacity.value as real == g.depth.value as real)
  }

  lemma UpdatesKeepSane(g: Gauges, cpu: ValidFloat, depth: ValidUint, capacity: ValidUint, age: ValidFloat,
                        used: ValidUint, write: ValidFloat)
    requires Sane(g)
    ensures Sane(UpdateCPU(g, cpu)) && Sane(UpdateQueue(g, depth, capacity, age)) && Sane(UpdateDisk(g, used, write))
  {
    if QueueAccepted(depth, capacity, age) && depth.valid && capacity.valid {
      Quotient(depth.value, capacity.value);
    }
  }

  lemma Quotient(a: nat, b: nat)
    requires b > 0 && a <= b
    ensures 0.0 <= a as real / b as real <= 1.0 && (a as real / b as real) * b as real == a as real
  {
  }
}
