/** The governor, its metrics and the coordinator in their own form: objects whose methods update fields,
    each proved to do what the functions of modules Governor and Coordination say. */
module GovernorObjects {
  import opened Wrappers
  import opened Floats
  import opened Governor
  import opened Gauging
  import opened Coordination

  class HostGovernor {
    const config: Config
    var currentState: State
    var recoveryStartTime: Time

    function Contents(): Gov
      reads this
    {
      Gov(currentState, recoveryStartTime)
    }

    constructor (config: Config)
      requires ValidateConfig(config)
      ensures this.config == config && Contents() == START
    {
      this.config, currentState, recoveryStartTime := config, Normal, 0;
    }

    method Evaluate(sig: Signals, now: Time) returns (tr: Option<Transition>)
      modifies this
      ensures Contents() == Governor.Evaluate(config, old(Contents()), sig, now)
      ensures tr == Emitted(old(Contents()), Contents(), now)
    {
      hide Target;
      var target := Target(config, sig, currentState);
      if Severity(target) > Severity(currentState) {
        tr := Move(target, now);
      } else if Severity(target) < Severity(currentState) {
        if recoveryStartTime == 0 {
          recoveryStartTime := now;
        } else if now - recoveryStartTime >= config.recoveryDuration {
          tr := Move(target, now);
          return;
        }
        tr := None;
      } else {
        recoveryStartTime := 0;
        tr := None;
      }
    }

    method Move(next: State, now: Time) returns (tr: Option<Transition>)
      requires next != currentState
      modifies this
      ensures Contents() == Gov(next, 0)
      ensures tr == Some(Transition(old(currentState), next, now))
    {
      var previous := currentState;
      currentState, recoveryStartTime := next, 0;
      tr := Some(Transition(previous, next, now));
    }
  }

  /** A governor for an accepted configuration, none for a rejected one. */
  method NewGovernor(config: Config) returns (g: HostGovernor?)
    ensures g == null <==> !ValidateConfig(config)
    ensures g != null ==> fresh(g) && g.config == config && g.Contents() == START
  {
    if !ValidateConfig(config) {
      return null;
    }
    g := new HostGovernor(config);
  }

  /** computeTargetState as the source runs it: a loop keeping the worst verdict seen. */
  method ComputeTargetState(c: Config, sig: Signals, current: State) returns (worst: State)
    ensures worst == Target(c, sig, current)
  {
    if !ValidateSignals(sig) {
      return EmergencyState;
    }
    var states := [EvalFloat(sig.cpu, c.cpu, current), EvalUint(sig.memory, c.memory, current),
                   EvalFloat(sig.storage, c.storage, current), EvalFloat(sig.queue, c.queue, current)];
    hide EvalFloat, EvalUint;
    worst := Normal;
    for k := 0 to |states|
      invariant k == 0 ==> worst == Normal
      invariant k == 1 ==> worst == Worse(Normal, states[0])
      invariant k == 2 ==> worst == Worse(Worse(Normal, states[0]), states[1])
      invariant k == 3 ==> worst == Worse(Worse(Worse(Normal, states[0]), states[1]), states[2])
      invariant k == 4 ==> worst == Worse(Worse(Worse(Worse(Normal, states[0]), states[1]), states[2]), states[3])
    {
      if Severity(states[k]) > Severity(worst) {
        worst := states[k];
      }
    }
  }

  class GovernorMetrics {
    var currentState: State
    var totalStateTransitions: nat
    var currentEmergencyStart: Time
    var lastTransitionTimestamp: Time
    var agentCPUPercent: ValidFloat
    var agentRSSBytes: ValidUint
    var queueDepthCount: ValidUint
    var queueCapacityCount: ValidUint
    var queueOldestEventAgeSec: ValidFloat
    var queueSaturationPercent: ValidFloat
    var diskStorageUsedBytes: ValidUint
    var diskWritePressureBytesPerSec: ValidFloat

    function Measured(): Gauges
      reads this
    {
      Gauges(agentCPUPercent, agentRSSBytes, queueDepthCount, queueCapacityCount, queueOldestEventAgeSec,
             queueSaturationPercent, diskStorageUsedBytes, diskWritePressureBytesPerSec)
    }

    function Contents(): Metrics
      reads this
    {
      Metrics(currentState, totalStateTransitions, currentEmergencyStart, lastTransitionTimestamp)
    }

    constructor ()
      ensures Contents() == NO_METRICS && Measured() == NO_GAUGES
    {
      agentCPUPercent, agentRSSBytes, queueDepthCount, queueCapacityCount := NO_FLOAT, NO_UINT, NO_UINT, NO_UINT;
      queueOldestEventAgeSec, queueSaturationPercent := NO_FLOAT, NO_FLOAT;
      diskStorageUsedBytes, diskWritePressureBytesPerSec := NO_UINT, NO_FLOAT;
      currentState, totalStateTransitions, currentEmergencyStart, lastTransitionTimestamp := Normal, 0, 0, 0;
    }

    method UpdateCPU(v: ValidFloat) returns (ok: bool)
      modifies this`agentCPUPercent
      ensures Measured() == Gauging.UpdateCPU(old(Measured()), v) && ok == CpuAccepted(v)
    {
      if v.valid {
        if v.value.NaN? || Less(v.value, Num(0.0)) || Less(Num(100.0), v.value) {
          return false;
        }
      }
      agentCPUPercent := v;
      return true;
    }

    method UpdateMemory(v: ValidUint)
      modifies this`agentRSSBytes
      ensures Measured() == old(Measured()).(rss := v)
    {
      agentRSSBytes := v;
    }

    method UpdateQueue(depth: ValidUint, capacity: ValidUint, oldestAge: ValidFloat) returns (ok: bool)
      modifies this`queueDepthCount, this`queueCapacityCount, this`queueOldestEventAgeSec, this`queueSaturationPercent
      ensures Measured() == Gauging.UpdateQueue(old(Measured()), depth, capacity, oldestAge)
      ensures ok == QueueAccepted(depth, capacity, oldestAge)
    {
      if depth.valid && capacity.valid {
        if depth.value > capacity.value {
          return false;
        }
      }
      if capacity.valid && capacity.value == 0 {
        return false;
      }
      if oldestAge.valid && (oldestAge.value.NaN? || Less(oldestAge.value, Num(0.0))) {
        return false;
      }
      queueDepthCount, queueCapacityCount, queueOldestEventAgeSec := depth, capacity, oldestAge;
      if depth.valid && capacity.valid {
        queueSaturationPercent := ValidFloat(Num(depth.value as real / capacity.value as real), true);
      } else {
        queueSaturationPercent := NO_FLOAT;
      }
      return true;
    }

    method UpdateDisk(used: ValidUint, writePressure: ValidFloat) returns (ok: bool)
      modifies this`diskStorageUsedBytes, this`diskWritePressureBytesPerSec
      ensures Measured() == Gauging.UpdateDisk(old(Measured()), used, writePressure) && ok == NotNegative(writePressure)
    {
      if writePressure.valid && (writePressure.value.NaN? || Less(writePressure.value, Num(0.0))) {
        return false;
      }
      diskStorageUsedBytes, diskWritePressureBytesPerSec := used, writePressure;
      return true;
    }

    /** The part of a snapshot that is not a copy. */
    method SnapshotTimeInEmergency(now: Time) returns (seconds: int)
      ensures seconds == TimeInEmergency(Contents(), now)
    {
      if currentEmergencyStart != 0 && currentState == EmergencyState {
        return now - currentEmergencyStart;
      }
      return 0;
    }

    method RecordTransition(tr: Transition)
      modifies this`currentState, this`totalStateTransitions, this`currentEmergencyStart, this`lastTransitionTimestamp
      ensures Contents() == Record(old(Contents()), tr)
    {
      currentState := tr.next;
      totalStateTransitions := totalStateTransitions + 1;
      lastTransitionTimestamp := tr.observedAt;
      if tr.next == EmergencyState {
        if currentEmergencyStart == 0 {
          currentEmergencyStart := tr.observedAt;
        }
      } else {
        currentEmergencyStart := 0;
      }
    }
  }

  class Coordinator {
    const governor: HostGovernor
    const metrics: GovernorMetrics
    const storageBudgetBytes: nat
    var cpuInitDone: bool

    function Contents(): Coord
      reads this, governor, metrics
    {
      Coord(governor.Contents(), metrics.Contents(), metrics.Measured(), cpuInitDone)
    }

    constructor (governor: HostGovernor, metrics: GovernorMetrics, budget: nat)
      ensures this.governor == governor && this.metrics == metrics && storageBudgetBytes == budget && !cpuInitDone
    {
      this.governor, this.metrics, storageBudgetBytes, cpuInitDone := governor, metrics, budget, false;
    }

    /** Feeds the gauges from the resolved measurements; what they refuse is reported. */
    method FeedMetrics(i: Inputs) returns (errors: set<StepError>)
      modifies metrics
      ensures metrics.Measured() == Feed(old(metrics.Measured()), i)
      ensures metrics.Contents() == old(metrics.Contents())
      ensures errors == GaugeErrors(i)
    {
      hide CpuAccepted, NotNegative, QueueAccepted, Gauging.UpdateCPU, Gauging.UpdateQueue, Gauging.UpdateDisk;
      errors := {};
      var ok := metrics.UpdateCPU(CpuMetric(i));
      if !ok {
        errors := errors + {CpuGaugeError};
      }
      metrics.UpdateMemory(MemMetric(i));
      ok := metrics.UpdateDisk(UsedMetric(i), WriteMetric(i));
      if !ok {
        errors := errors + {DiskGaugeError};
      }
      ok := metrics.UpdateQueue(i.depth, i.capacity, i.oldestAge);
      if !ok {
        errors := errors + {QueueGaugeError};
      }
    }

    /** Reads the sensors: the signals, what is not ready, and what went wrong. */
    method Sense(i: Inputs)
      returns (signals: Signals, cpuWarmup: bool, memInvalid: bool, storageBlocked: bool, errors: set<StepError>)
      modifies this`cpuInitDone
      ensures cpuInitDone == (old(cpuInitDone) || !i.cpu.err)
      ensures cpuWarmup == (!old(cpuInitDone) && !i.cpu.err && !i.cpu.valid)
      ensures memInvalid == (i.memory.err || !i.memory.valid)
      ensures storageBlocked == (storageBudgetBytes == 0)
      ensures signals == SignalsOf(i, storageBudgetBytes) && errors == SensorErrors(i, storageBudgetBytes)
    {
      hide CalculateQueueSaturation, SignalOf;
      errors := {};
      var cpuVal := NaN;
      cpuWarmup := false;
      if i.cpu.err {
        errors := errors + {CpuError};
      } else if !cpuInitDone {
        cpuInitDone := true;
        if i.cpu.valid {
          cpuVal := i.cpu.value;
        } else {
          cpuWarmup := true;
        }
      } else if i.cpu.valid {
        cpuVal := i.cpu.value;
      }

      var memVal := 0;
      memInvalid := false;
      if i.memory.err {
        memInvalid := true;
        errors := errors + {MemoryError};
      } else if !i.memory.valid {
        memInvalid := true;
        errors := errors + {UnavailableRSS};
      } else {
        memVal := i.memory.value;
      }

      var used := ValidUint(i.storage.value, i.storage.valid);
      if i.storage.err {
        used := NO_UINT;
        errors := errors + {StorageError};
      }
      var pressure := CalculateStoragePressure(used, storageBudgetBytes);
      storageBlocked := pressure.Missing?;
      if storageBlocked {
        errors := errors + {MissingStorageBudget};
      }

      var saturation := CalculateQueueSaturation(i.depth, i.capacity);
      if saturation.Missing? {
        errors := errors + {InvalidQueueCapacity};
      } else if saturation.Exceeded? {
        errors := errors + {QueueDepthExceedsCap};
      }

      signals := Signals(cpuVal, memVal, SignalOf(pressure), SignalOf(saturation));
    }

    method Step(i: Inputs) returns (report: Option<Report>)
      modifies this, governor, metrics
      ensures (Contents(), report) == Coordination.Step(governor.config, storageBudgetBytes, old(Contents()), i)
    {
      hide Governor.Evaluate, SensorErrors, GaugeErrors, SignalsOf, Feed;
      if i.canceled {
        return None;
      }
      var signals, cpuWarmup, memInvalid, storageBlocked, errors := Sense(i);
      var refused := FeedMetrics(i);
      errors := errors + refused;
      if cpuWarmup || !cpuInitDone || memInvalid {
        return Some(Report(false, false, governor.currentState, storageBlocked, errors));
      }
      if storageBlocked {
        return Some(Report(true, false, governor.currentState, storageBlocked, errors));
      }
      var tr := governor.Evaluate(signals, i.now);
      if tr.Some? {
        metrics.RecordTransition(tr.value);
      }
      return Some(Report(true, true, governor.currentState, storageBlocked, errors));
    }
  }
}
