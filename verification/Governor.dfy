/** The resource governor: thresholds with hysteresis, a dwell timer for recovery
    (agent/internal/governor/governor.go). */
module Governor {
  import opened Floats

  datatype State = Normal | ResourceSaver | EmergencyState

  /** Clock readings; 0 is the zero time, which the governor takes for "no timer". */
  type Time = int

  datatype Dim = Dim(saver: Float, emergency: Float, margin: Float)

  datatype MemDim = MemDim(saver: nat, emergency: nat, margin: nat)

  datatype Config = Config(cpu: Dim, memory: MemDim, storage: Dim, queue: Dim, recoveryDuration: int)

  datatype Signals = Signals(cpu: Float, memory: nat, storage: Float, queue: Float)

  function Severity(s: State): nat {
    match s
    case Normal => 0
    case ResourceSaver => 1
    case EmergencyState => 2
  }

  /** The threshold checks of one float dimension whose values range up to top. */
  predicate ValidDim(d: Dim, top: Float) {
    && !Less(d.saver, Num(0.0)) && !Less(top, d.saver)
    && !AtMost(d.emergency, d.saver) && !Less(top, d.emergency)
    && !Less(d.margin, Num(0.0)) && !AtMost(d.saver, d.margin)
  }

  predicate ValidateConfig(c: Config) {
    && ValidDim(c.cpu, Num(100.0))
    && c.memory.emergency > c.memory.saver && c.memory.margin < c.memory.saver
    && ValidDim(c.storage, Num(1.0))
    && ValidDim(c.queue, Num(1.0))
    && c.recoveryDuration > 0
  }

  predicate ValidRatio(v: Float) {
    !v.NaN? && !Less(v, Num(0.0)) && !Less(Num(1.0), v)
  }

  predicate ValidateSignals(s: Signals) {
    && !s.cpu.NaN? && !Less(s.cpu, Num(0.0))
    && ValidRatio(s.storage)
    && ValidRatio(s.queue)
  }

  function EvalFloat(val: Float, d: Dim, current: State): State {
    var effEmerg := if current == EmergencyState then Minus(d.emergency, d.margin) else d.emergency;
    var effSaver := if current != Normal then Minus(d.saver, d.margin) else d.saver;
    if AtMost(effEmerg, val) then EmergencyState
    else if AtMost(effSaver, val) then ResourceSaver
    else Normal
  }

  function EvalUint(val: nat, d: MemDim, current: State): State {
    var effEmerg := if current == EmergencyState && d.emergency > d.margin then d.emergency - d.margin else d.emergency;
    var effSaver := if current != Normal && d.saver > d.margin then d.saver - d.margin else d.saver;
    if effEmerg <= val then EmergencyState
    else if effSaver <= val then ResourceSaver
    else Normal
  }

  function Worse(a: State, b: State): State {
    if Severity(b) > Severity(a) then b else a
  }

  /** The worst verdict of the four dimensions; an invalid signal is taken for an emergency. */
  function Target(c: Config, sig: Signals, current: State): State {
    if !ValidateSignals(sig) then EmergencyState
    else
      Worse(Worse(Worse(Worse(Normal, EvalFloat(sig.cpu, c.cpu, current)),
                        EvalUint(sig.memory, c.memory, current)),
                  EvalFloat(sig.storage, c.storage, current)),
            EvalFloat(sig.queue, c.queue, current))
  }

  datatype Gov = Gov(state: State, timer: Time)

  const START := Gov(Normal, 0)

  function Evaluate(c: Config, g: Gov, sig: Signals, now: Time): Gov {
    var target := Target(c, sig, g.state);
    if Severity(target) > Severity(g.state) then Gov(target, 0)
    else if Severity(target) < Severity(g.state) then
      if g.timer == 0 then g.(timer := now)
      else if now - g.timer >= c.recoveryDuration then Gov(target, 0)
      else g
    else g.(timer := 0)
  }
}
