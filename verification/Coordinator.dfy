/** The coordinator feeds samples to the governor, whose transitions feed the metrics
    (agent/internal/governor/coordinator.go, agent/internal/governor/metrics.go). */
module Coordination {
  import opened Wrappers
  import opened Floats
  import opened Governor
  import opened Gauging

  // ----- Metrics -----

  datatype Transition = Transition(previous: State, next: State, observedAt: Time)

  /** The part of the metrics that follows the governor; emergencyStart 0 means unset. */
  datatype Metrics = Metrics(state: State, transitions: nat, emergencyStart: Time, lastTransition: Time)

  const NO_METRICS := Metrics(Normal, 0, 0, 0)

  function Record(m: Metrics, tr: Transition): Metrics {
    Metrics(tr.next, m.transitions + 1,
            if tr.next != EmergencyState then 0
            else if m.emergencyStart == 0 then tr.observedAt
            else m.emergencyStart,
            tr.observedAt)
  }

  function TimeInEmergency(m: Metrics, now: Time): int {
    if m.emergencyStart != 0 && m.state == EmergencyState then now - m.emergencyStart else 0
  }

  /** The transition one evaluation reports, if any. */
  function Emitted(before: Gov, after: Gov, now: Time): Option<Transition> {
    if after.state == before.state then None else Some(Transition(before.state, after.state, now))
  }

  // ----- Samples and derived signals -----

  datatype Sample<T> = Sample(err: bool, valid: bool, value: T)

  datatype Derived = Missing | Unavailable | Exceeded | Ratio(r: real)

  function CalculateStoragePressure(used: ValidUint, budget: nat): Derived {
    if budget == 0 then Missing
    else if !used.valid then Unavailable
    else
      var ratio := used.value as real / budget as real;
      Ratio(if ratio > 1.0 then 1.0 else ratio)
  }

  function CalculateQueueSaturation(depth: ValidUint, capacity: ValidUint): Derived {
    if !capacity.valid || capacity.value == 0 then Missing
    else if !depth.valid then Unavailable
    else if depth.value > capacity.value then Exceeded
    else Ratio(depth.value as real / capacity.value as real)
  }

  function SignalOf(d: Derived): Float {
    match d
    case Ratio(r) => Num(r)
    case _ => NaN
  }

  datatype StepError =
    | CpuError | MemoryError | UnavailableRSS | StorageError | MissingStorageBudget
    | InvalidQueueCapacity | QueueDepthExceedsCap
    | CpuGaugeError | DiskGaugeError | QueueGaugeError

  datatype Inputs = Inputs(canceled: bool, cpu: Sample<Float>, memory: Sample<nat>, storage: Sample<nat>,
                           write: ValidFloat, depth: ValidUint, capacity: ValidUint, oldestAge: ValidFloat, now: Time)

  datatype Report = Report(ready: bool, evaluated: bool, state: State, storageBlocked: bool, errors: set<StepError>)

  datatype Coord = Coord(gov: Gov, metrics: Metrics, gauges: Gauges, cpuInitDone: bool)

  const COORD_START := Coord(START, NO_METRICS, NO_GAUGES, false)

  /** A CPU value is used only from an error-free, valid sample. */
  function CpuSignal(i: Inputs): Float {
    if i.cpu.err || !i.cpu.valid then NaN else i.cpu.value
  }

  function StoragePressure(i: Inputs, budget: nat): Derived {
    CalculateStoragePressure(UsedMetric(i), budget)
  }

  // The resolved measurements, which both the gauges and the signals are made from.

  function CpuMetric(i: Inputs): ValidFloat {
    if i.cpu.err || !i.cpu.valid then NO_FLOAT else ValidFloat(i.cpu.value, true)
  }

  function MemMetric(i: Inputs): ValidUint {
    if i.memory.err || !i.memory.valid then NO_UINT else ValidUint(i.memory.value, true)
  }

  function UsedMetric(i: Inputs): ValidUint {
    if i.storage.err then NO_UINT else ValidUint(i.storage.value, i.storage.valid)
  }

  function WriteMetric(i: Inputs): ValidFloat {
    if i.storage.err then NO_FLOAT else i.write
  }

  function Feed(g: Gauges, i: Inputs): Gauges {
    UpdateQueue(UpdateDisk(UpdateCPU(g, CpuMetric(i)).(rss := MemMetric(i)), UsedMetric(i), WriteMetric(i)),
                i.depth, i.capacity, i.oldestAge)
  }

  function GaugeErrors(i: Inputs): set<StepError> {
    (if CpuAccepted(CpuMetric(i)) then {} else {CpuGaugeError})
    + (if NotNegative(WriteMetric(i)) then {} else {DiskGaugeError})
    + (if QueueAccepted(i.depth, i.capacity, i.oldestAge) then {} else {QueueGaugeError})
  }

  function SensorErrors(i: Inputs, budget: nat): set<StepError> {
    (if i.cpu.err then {CpuError} else {})
    + (if i.memory.err then {MemoryError} else if !i.memory.valid then {UnavailableRSS} else {})
    + (if i.storage.err then {StorageError} else {})
    + (if budget == 0 then {MissingStorageBudget} else {})
    + (match CalculateQueueSaturation(i.depth, i.capacity)
       case Missing => {InvalidQueueCapacity}
       case Exceeded => {QueueDepthExceedsCap}
       case _ => {})
  }

  function Errors(i: Inputs, budget: nat): set<StepError> {
    SensorErrors(i, budget) + GaugeErrors(i)
  }

  function SignalsOf(i: Inputs, budget: nat): Signals {
    Signals(CpuSignal(i),
            if i.memory.err || !i.memory.valid then 0 else i.memory.value,
            SignalOf(StoragePressure(i, budget)),
            SignalOf(CalculateQueueSaturation(i.depth, i.capacity)))
  }

  /** One step: sample, derive, and evaluate the governor unless the step is not ready or is blocked. */
  function Step(c: Config, budget: nat, s: Coord, i: Inputs): (Coord, Option<Report>) {
    if i.canceled then (s, None)
    else
      var initDone := s.cpuInitDone || !i.cpu.err;
      var warmup := !s.cpuInitDone && !i.cpu.err && !i.cpu.valid;
      var s' := s.(cpuInitDone := initDone, gauges := Feed(s.gauges, i));
      var blocked := budget == 0;
      var errors := Errors(i, budget);
      if warmup || !initDone || i.memory.err || !i.memory.valid then
        (s', Some(Report(false, false, s.gov.state, blocked, errors)))
      else if blocked then
        (s', Some(Report(true, false, s.gov.state, blocked, errors)))
      else
        var g := Evaluate(c, s.gov, SignalsOf(i, budget), i.now);
        var m := match Emitted(s.gov, g, i.now)
                 case Some(tr) => Record(s.metrics, tr)
                 case None => s.metrics;
        (Coord(g, m, Feed(s.gauges, i), initDone), Some(Report(true, true, g.state, blocked, errors)))
  }

  function Run(c: Config, budget: nat, ins: seq<Inputs>): Coord {
    if ins == [] then COORD_START
    else Step(c, budget, Run(c, budget, ins[..|ins| - 1]), ins[|ins| - 1]).0
  }

  /** Steps of a run after which the governor was in another state than before. */
  function Changes(c: Config, budget: nat, ins: seq<Inputs>): nat {
    if ins == [] then 0
    else
      var before := Run(c, budget, ins[..|ins| - 1]);
      Changes(c, budget, ins[..|ins| - 1]) + if Run(c, budget, ins).gov.state != before.gov.state then 1 else 0
  }

  ghost predicate Agree(s: Coord) {
    && s.metrics.state == s.gov.state
    && s.metrics.emergencyStart == (if s.gov.state == EmergencyState then s.metrics.lastTransition else 0)
  }

  /** A transition is reported exactly when the state changes, and every transition changes severity. */
  lemma StepAgrees(c: Config, budget: nat, s: Coord, i: Inputs)
    requires Agree(s)
    ensures var (s', r) := Step(c, budget, s, i);
            && Agree(s')
            && s'.metrics.transitions == s.metrics.transitions + (if s'.gov.state != s.gov.state then 1 else 0)
            && (s'.gov.state != s.gov.state ==>
                  r.Some? && r.value.ready && r.value.evaluated && s'.metrics.lastTransition == i.now)
            && (s'.gov != s.gov ==> r.Some? && r.value.evaluated)
            && (r.Some? ==>
                  && r.value.state == s'.gov.state
                  && (r.value.evaluated ==> r.value.ready && budget > 0 && s'.cpuInitDone))
            && (s.cpuInitDone ==> s'.cpuInitDone)
  {
    hide Target, Errors, Feed;
  }

  /** Over any run the metrics tell the governor's state, the number of its changes and, through the last
      transition, since when it has been in EMERGENCY; without a storage budget the governor never leaves
      NORMAL, whatever is sampled. */
  lemma {:induction false} MetricsFollowGovernor(c: Config, budget: nat, ins: seq<Inputs>, now: Time)
    ensures var s := Run(c, budget, ins);
            && Agree(s)
            && s.metrics.transitions == Changes(c, budget, ins)
            && (budget == 0 ==> s.gov == START)
            && TimeInEmergency(s.metrics, now)
               == (if s.gov.state == EmergencyState && s.metrics.lastTransition != 0 then now - s.metrics.lastTransition
                   else 0)
  {
    hide Step;
    if ins != [] {
      MetricsFollowGovernor(c, budget, ins[..|ins| - 1], now);
      StepAgrees(c, budget, Run(c, budget, ins[..|ins| - 1]), ins[|ins| - 1]);
    }
  }

  /** When a step does what: it evaluates exactly if it is not cancelled, the memory was measured, the CPU sampler
      has been primed by an earlier step or gives a value now, and there is a storage budget; it then makes one
      evaluation of the governor with the step's signals at the step's time, and otherwise leaves the governor
      and what the metrics say of it alone. The gauges are fed unless the step is cancelled. */
  lemma StepEvaluatesExactly(c: Config, budget: nat, s: Coord, i: Inputs)
    ensures var (s', r) := Step(c, budget, s, i);
            && (r.None? <==> i.canceled)
            && (i.canceled ==> s' == s)
            && (!i.canceled ==>
                  && (r.value.ready <==> !i.memory.err && i.memory.valid
                                         && (s.cpuInitDone || (!i.cpu.err && i.cpu.valid)))
                  && (r.value.evaluated <==> r.value.ready && 0 < budget)
                  && (r.value.storageBlocked <==> budget == 0)
                  && s'.gov == (if r.value.evaluated then Evaluate(c, s.gov, SignalsOf(i, budget), i.now) else s.gov)
                  && (s'.gov.state == s.gov.state ==> s'.metrics == s.metrics)
                  && r.value.state == s'.gov.state
                  && (s'.cpuInitDone <==> s.cpuInitDone || !i.cpu.err)
                  && s'.gauges == Feed(s.gauges, i)
                  && r.value.errors == Errors(i, budget))
  {
    hide Evaluate, SignalsOf, Feed, Errors;
  }

  /** Each sensor error and its condition. */
  lemma SensorErrorsExactly(i: Inputs, budget: nat)
    ensures var errors := Errors(i, budget);
            && (CpuError in errors <==> i.cpu.err)
            && (MemoryError in errors <==> i.memory.err)
            && (UnavailableRSS in errors <==> !i.memory.err && !i.memory.valid)
            && (StorageError in errors <==> i.storage.err)
            && (MissingStorageBudget in errors <==> budget == 0)
            && (InvalidQueueCapacity in errors <==> !i.capacity.valid || i.capacity.value == 0)
            && (QueueDepthExceedsCap in errors <==>
                  i.capacity.valid && 0 < i.capacity.value < i.depth.value && i.depth.valid)
  {
    hide GaugeErrors, CalculateQueueSaturation;
    GaugeErrorsApart(i);
    SaturationKinds(i.depth, i.capacity);
  }

  lemma GaugeErrorsApart(i: Inputs)
    ensures GaugeErrors(i) <= {CpuGaugeError, DiskGaugeError, QueueGaugeError}
  {
  }

  lemma SaturationKinds(depth: ValidUint, capacity: ValidUint)
    ensures var d := CalculateQueueSaturation(depth, capacity);
            && (d.Missing? <==> !capacity.valid || capacity.value == 0)
            && (d.Exceeded? <==> capacity.valid && 0 < capacity.value < depth.value && depth.valid)
  {
  }

  /** The signals of a step: what was measured, the used share of the budget, at most 1, and the filled share of the
      queue; a measurement that is missing makes the float signals NaN. */
  lemma SignalsExactly(i: Inputs, budget: nat)
    ensures var sig := SignalsOf(i, budget);
            && sig.cpu == (if i.cpu.err || !i.cpu.valid then NaN else i.cpu.value)
            && (!i.memory.err && i.memory.valid ==> sig.memory == i.memory.value)
            && (0 < budget && !i.storage.err && i.storage.valid ==>
                  && sig.storage.Num?
                  && (i.storage.value <= budget ==> sig.storage.r * budget as real == i.storage.value as real)
                  && (budget <= i.storage.value ==> sig.storage.r == 1.0))
            && (i.capacity.valid && 0 < i.capacity.value && i.depth.valid && i.depth.value <= i.capacity.value ==>
                  && sig.queue.Num?
                  && sig.queue.r * i.capacity.value as real == i.depth.value as real)
  {
    if 0 < budget { ShareExactly(i.storage.value, budget); }
    if 0 < i.capacity.value { ShareExactly(i.depth.value, i.capacity.value); }
  }

  lemma ShareExactly(a: nat, b: nat)
    requires 0 < b
    ensures var r := a as real / b as real; r * b as real == a as real && (r > 1.0 <==> a > b) && (a == b ==> r == 1.0)
  {
    var r := a as real / b as real;
    assert r * b as real == a as real;
    if r > 1.0 { assert r * b as real > b as real; }
    if a > b { assert r * b as real > b as real; }
  }

  /** The derived signals are ratios or invalid, so storage and queue can trip the fail-safe only by being
      unavailable; and an evaluation with an unavailable signal is an evaluation to EMERGENCY. */
  lemma DerivedSignalsAreRatios(c: Config, i: Inputs, budget: nat, s: State)
    ensures var sig := SignalsOf(i, budget);
            && (sig.storage.NaN? || ValidRatio(sig.storage)) && (sig.queue.NaN? || ValidRatio(sig.queue))
            && (sig.storage.NaN? <==> budget == 0 || i.storage.err || !i.storage.valid)
            && (sig.queue.NaN? <==>
                  !i.capacity.valid || i.capacity.value == 0 || !i.depth.valid || i.depth.value > i.capacity.value)
            && (sig.storage.NaN? || sig.queue.NaN? || sig.cpu.NaN? ==> Target(c, sig, s) == EmergencyState)
  {
    if i.capacity.valid && i.capacity.value > 0 && i.depth.valid && i.depth.value <= i.capacity.value {
      RatioBounds(i.depth.value, i.capacity.value);
    }
    if budget > 0 { RatioBounds(0, budget); NonNegativeRatio(i.storage.value, budget); }
    hide EvalFloat, EvalUint;
  }

  lemma RatioBounds(a: nat, b: nat)
    requires b > 0 && a <= b
    ensures 0.0 <= a as real / b as real <= 1.0
  {
  }

  lemma NonNegativeRatio(a: nat, b: nat)
    requires b > 0
    ensures 0.0 <= a as real / b as real
  {
  }

  // ----- Gauges -----

  /** Over any run the gauges make sense, whatever is sampled. */
  lemma {:induction false} GaugesStaySane(c: Config, budget: nat, ins: seq<Inputs>)
    ensures Sane(Run(c, budget, ins).gauges)
  {
    hide Sane, Errors, Evaluate;
    if ins == [] {
      NoGaugesAreSane();
    } else {
      var i, before := ins[|ins| - 1], Run(c, budget, ins[..|ins| - 1]);
      GaugesStaySane(c, budget, ins[..|ins| - 1]);
      FeedKeepsSane(before.gauges, i);
    }
  }

  lemma NoGaugesAreSane()
    ensures Sane(NO_GAUGES)
  {
  }

  lemma FeedKeepsSane(g: Gauges, i: Inputs)
    requires Sane(g)
    ensures Sane(Feed(g, i))
  {
    hide UpdateCPU, UpdateDisk, UpdateQueue;
    UpdatesKeepSane(g, CpuMetric(i), i.depth, i.capacity, i.oldestAge, UsedMetric(i), WriteMetric(i));
    var g1 := UpdateCPU(g, CpuMetric(i)).(rss := MemMetric(i));
    UpdatesKeepSane(g1, CpuMetric(i), i.depth, i.capacity, i.oldestAge, UsedMetric(i), WriteMetric(i));
    UpdatesKeepSane(UpdateDisk(g1, UsedMetric(i), WriteMetric(i)), CpuMetric(i), i.depth, i.capacity, i.oldestAge,
                    UsedMetric(i), WriteMetric(i));
  }

  /** The value a gauge shows as the signal it belongs to: an absent one is NaN. */
  function Shown(v: ValidFloat): Float {
    if v.valid then v.value else NaN
  }

  /** Gauges and signals come from the same measurements, and they agree unless a gauge refused its update:
      then the gauge keeps its old value while the governor is given the new one. */
  lemma GaugesShowTheSignals(g: Gauges, i: Inputs, budget: nat)
    ensures var g', sig := Feed(g, i), SignalsOf(i, budget);
            && (CpuGaugeError !in Errors(i, budget) ==>
                  Shown(g'.cpu) == sig.cpu && (g'.cpu.valid <==> !i.cpu.err && i.cpu.valid))
            && (CpuGaugeError in Errors(i, budget) ==> g'.cpu == g.cpu && sig.cpu == i.cpu.value)
            && g'.rss == MemMetric(i) && (g'.rss.valid ==> g'.rss.value == sig.memory)
            && (DiskGaugeError !in Errors(i, budget) ==>
                  && SignalOf(CalculateStoragePressure(g'.used, budget)) == sig.storage
                  && g'.used == (if i.storage.err then NO_UINT else ValidUint(i.storage.value, i.storage.valid))
                  && g'.write == (if i.storage.err then NO_FLOAT else i.write))
            && (DiskGaugeError in Errors(i, budget) ==>
                  && g'.used == g.used && g'.write == g.write
                  && sig.storage ==
                       SignalOf(CalculateStoragePressure(ValidUint(i.storage.value, i.storage.valid), budget)))
            && (DiskGaugeError in Errors(i, budget) <==>
                  !i.storage.err && i.write.valid && (i.write.value.NaN? || Less(i.write.value, Num(0.0))))
            && (QueueGaugeError !in Errors(i, budget) ==>
                  && Shown(g'.saturation) == sig.queue
                  && g'.depth == i.depth && g'.capacity == i.capacity && g'.oldestAge == i.oldestAge)
            && (QueueGaugeError in Errors(i, budget) ==>
                  && g'.saturation == g.saturation && g'.depth == g.depth && g'.capacity == g.capacity
                  && g'.oldestAge == g.oldestAge
                  && sig.queue ==
                       if i.capacity.valid && 0 < i.capacity.value && i.depth.valid && i.depth.value <= i.capacity.value
                       then Num(i.depth.value as real / i.capacity.value as real) else NaN)
            && (QueueGaugeError in Errors(i, budget) <==>
                  || (i.capacity.valid
                      && (i.capacity.value == 0 || (i.depth.valid && i.depth.value > i.capacity.value)))
                  || (i.oldestAge.valid && (i.oldestAge.value.NaN? || Less(i.oldestAge.value, Num(0.0)))))
            && (CpuGaugeError in Errors(i, budget) <==>
                  !i.cpu.err && i.cpu.valid
                      && (i.cpu.value.NaN? || Less(i.cpu.value, Num(0.0)) || Less(Num(100.0), i.cpu.value)))
  {
  }

  const QUIET := Inputs(false, Sample(false, true, Num(50.0)), Sample(false, true, 1), Sample(false, true, 90),
                        NO_FLOAT, ValidUint(1, true), ValidUint(2, true), NO_FLOAT, 0)

  const BEFORE := NO_GAUGES.(cpu := ValidFloat(Num(50.0), true), used := ValidUint(10, true),
                             saturation := ValidFloat(Num(0.1), true))

  /** Each of the three refusals, with a governor signal that the stale gauge does not show: a CPU reading above
      100, a write rate that is NaN, and an oldest age that is NaN. */
  lemma GaugesCanGoStale()
    ensures var i := QUIET.(cpu := Sample(false, true, Num(150.0)));
            Feed(BEFORE, i).cpu.value == Num(50.0) && SignalsOf(i, 100).cpu == Num(150.0)
    ensures var i := QUIET.(write := ValidFloat(NaN, true));
            Feed(BEFORE, i).used.value == 10 && SignalsOf(i, 100).storage == Num(0.9)
    ensures var i := QUIET.(oldestAge := ValidFloat(NaN, true));
            Feed(BEFORE, i).saturation.value == Num(0.1) && SignalsOf(i, 100).queue == Num(0.5)
  {
  }
}
