/** When the governor's verdict is stable, how often it can change over a run, and what precedes a recovery. */
module GovernorProperties {
  import opened Floats
  import opened Governor

  // ----- What the verdict is -----

  /** The value is at the threshold or over it, the threshold being lowered by the margin or not. */
  predicate Reaches(v: Float, threshold: Float, margin: Float, lowered: bool) {
    AtMost(if lowered then Minus(threshold, margin) else threshold, v)
  }

  /** The same for bytes: a threshold that the margin would bring to zero or below is not lowered. */
  predicate BytesReach(v: nat, threshold: nat, margin: nat, lowered: bool) {
    if lowered && threshold > margin then threshold <= v + margin else threshold <= v
  }

  /** A signal is missing or out of range. The CPU may exceed 100. */
  predicate Implausible(sig: Signals) {
    || sig.cpu.NaN? || Less(sig.cpu, Num(0.0))
    || sig.storage.NaN? || Less(sig.storage, Num(0.0)) || Less(Num(1.0), sig.storage)
    || sig.queue.NaN? || Less(sig.queue, Num(0.0)) || Less(Num(1.0), sig.queue)
  }

  lemma EvalFloatExactly(v: Float, d: Dim, s: State)
    ensures EvalFloat(v, d, s) == EmergencyState <==> Reaches(v, d.emergency, d.margin, s == EmergencyState)
    ensures EvalFloat(v, d, s) != Normal <==>
              Reaches(v, d.emergency, d.margin, s == EmergencyState) || Reaches(v, d.saver, d.margin, s != Normal)
  {
  }

  lemma EvalUintExactly(v: nat, d: MemDim, s: State)
    ensures EvalUint(v, d, s) == EmergencyState <==> BytesReach(v, d.emergency, d.margin, s == EmergencyState)
    ensures EvalUint(v, d, s) != Normal <==>
              BytesReach(v, d.emergency, d.margin, s == EmergencyState) || BytesReach(v, d.saver, d.margin, s != Normal)
  {
  }

  /** The verdict is EMERGENCY exactly for implausible signals or some dimension at or over its emergency threshold,
      lowered by the margin in EMERGENCY, and NORMAL exactly for plausible signals with every dimension below both
      its thresholds, the saver threshold being lowered by the margin outside NORMAL. */
  lemma VerdictExactly(c: Config, sig: Signals, s: State)
    ensures var held := s == EmergencyState;
            Target(c, sig, s) == EmergencyState <==>
              || Implausible(sig)
              || Reaches(sig.cpu, c.cpu.emergency, c.cpu.margin, held)
              || BytesReach(sig.memory, c.memory.emergency, c.memory.margin, held)
              || Reaches(sig.storage, c.storage.emergency, c.storage.margin, held)
              || Reaches(sig.queue, c.queue.emergency, c.queue.margin, held)
    ensures var held := s != Normal;
            Target(c, sig, s) == Normal <==>
              && Target(c, sig, s) != EmergencyState
              && !Reaches(sig.cpu, c.cpu.saver, c.cpu.margin, held)
              && !BytesReach(sig.memory, c.memory.saver, c.memory.margin, held)
              && !Reaches(sig.storage, c.storage.saver, c.storage.margin, held)
              && !Reaches(sig.queue, c.queue.saver, c.queue.margin, held)
  {
    hide EvalFloat, EvalUint, Reaches, BytesReach, Less;
    EvalFloatExactly(sig.cpu, c.cpu, s);
    EvalUintExactly(sig.memory, c.memory, s);
    EvalFloatExactly(sig.storage, c.storage, s);
    EvalFloatExactly(sig.queue, c.queue, s);
  }

  /** Finite thresholds. */
  predicate Finite(d: Dim) {
    d.saver.Num? && d.emergency.Num? && d.margin.Num?
  }

  /** With finite thresholds and signals the comparison is that of the numbers. */
  lemma ReachesInNumbers(v: real, d: Dim, lowered: bool)
    requires Finite(d)
    ensures Reaches(Num(v), d.saver, d.margin, lowered) <==> v >= d.saver.r - if lowered then d.margin.r else 0.0
    ensures Reaches(Num(v), d.emergency, d.margin, lowered) <==>
              v >= d.emergency.r - if lowered then d.margin.r else 0.0
  {
  }

  /** Which finite configurations are accepted: in each dimension saver below emergency, both in range, and a margin
      that is not negative and below saver, and a positive recovery duration. */
  lemma AcceptedInNumbers(c: Config)
    requires Finite(c.cpu) && Finite(c.storage) && Finite(c.queue)
    ensures ValidateConfig(c) <==>
              && 0.0 <= c.cpu.margin.r < c.cpu.saver.r < c.cpu.emergency.r <= 100.0
              && c.memory.margin < c.memory.saver < c.memory.emergency
              && 0.0 <= c.storage.margin.r < c.storage.saver.r < c.storage.emergency.r <= 1.0
              && 0.0 <= c.queue.margin.r < c.queue.saver.r < c.queue.emergency.r <= 1.0
              && c.recoveryDuration > 0
  {
  }

  /** One evaluation: a worse verdict is taken at once, a better one only when the timer has run for the recovery
      duration; the timer starts at the first better verdict, keeps its start, and is cleared by any verdict that
      is not better and by every change. */
  lemma EvaluateExactly(c: Config, g: Gov, sig: Signals, now: Time)
    ensures var t := Target(c, sig, g.state);
            var g' := Evaluate(c, g, sig, now);
            var worse := (g.state == Normal && t != Normal) || (g.state == ResourceSaver && t == EmergencyState);
            var better := t != g.state && !worse;
            && (g'.state != g.state <==> worse || (better && g.timer != 0 && now - g.timer >= c.recoveryDuration))
            && (g'.state != g.state ==> g' == Gov(t, 0))
            && (g'.state == g.state ==> g'.timer == if !better then 0 else if g.timer == 0 then now else g.timer)
  {
    hide Target;
  }

  // ----- Hysteresis -----

  /** The margin is a number, or the dimension never fires at all. */
  predicate Sound(d: Dim) {
    d.margin.NaN? ==> d.saver.NaN? && d.emergency.NaN?
  }

  predicate AllSound(c: Config) {
    Sound(c.cpu) && Sound(c.storage) && Sound(c.queue)
  }

  /** How the verdicts of one dimension from NORMAL, SAVER and EMERGENCY must relate. */
  predicate Settles(n: State, s: State, e: State) {
    && Severity(n) <= Severity(s) <= Severity(e)
    && (n == EmergencyState <==> s == EmergencyState)
    && (e == ResourceSaver ==> s == ResourceSaver)
  }

  lemma FloatSettles(v: Float, d: Dim, top: real)
    requires ValidDim(d, Num(top)) && Sound(d) && !v.NaN?
    ensures Settles(EvalFloat(v, d, Normal), EvalFloat(v, d, ResourceSaver), EvalFloat(v, d, EmergencyState))
  {
  }

  lemma UintSettles(v: nat, d: MemDim)
    requires d.emergency > d.saver > d.margin
    ensures Settles(EvalUint(v, d, Normal), EvalUint(v, d, ResourceSaver), EvalUint(v, d, EmergencyState))
  {
  }

  lemma WorseSettles(n: State, s: State, e: State, n': State, s': State, e': State)
    requires Settles(n, s, e) && Settles(n', s', e')
    ensures Settles(Worse(n, n'), Worse(s, s'), Worse(e, e'))
  {
  }

  lemma TargetSettles(c: Config, sig: Signals)
    requires ValidateConfig(c) && AllSound(c)
    ensures Settles(Target(c, sig, Normal), Target(c, sig, ResourceSaver), Target(c, sig, EmergencyState))
  {
    var N, S, E := Normal, ResourceSaver, EmergencyState;
    if ValidateSignals(sig) {
      FloatSettles(sig.cpu, c.cpu, 100.0);
      UintSettles(sig.memory, c.memory);
      FloatSettles(sig.storage, c.storage, 1.0);
      FloatSettles(sig.queue, c.queue, 1.0);
      hide EvalFloat, EvalUint, ValidateConfig, AllSound, ValidateSignals, Worse;
      var n1, s1, e1 := Worse(N, EvalFloat(sig.cpu, c.cpu, N)), Worse(N, EvalFloat(sig.cpu, c.cpu, S)),
          Worse(N, EvalFloat(sig.cpu, c.cpu, E));
      WorseSettles(N, N, N, EvalFloat(sig.cpu, c.cpu, N), EvalFloat(sig.cpu, c.cpu, S), EvalFloat(sig.cpu, c.cpu, E));
      var n2, s2, e2 := Worse(n1, EvalUint(sig.memory, c.memory, N)), Worse(s1, EvalUint(sig.memory, c.memory, S)),
          Worse(e1, EvalUint(sig.memory, c.memory, E));
      WorseSettles(n1, s1, e1, EvalUint(sig.memory, c.memory, N), EvalUint(sig.memory, c.memory, S),
                   EvalUint(sig.memory, c.memory, E));
      var n3, s3, e3 := Worse(n2, EvalFloat(sig.storage, c.storage, N)),
          Worse(s2, EvalFloat(sig.storage, c.storage, S)), Worse(e2, EvalFloat(sig.storage, c.storage, E));
      WorseSettles(n2, s2, e2, EvalFloat(sig.storage, c.storage, N), EvalFloat(sig.storage, c.storage, S),
                   EvalFloat(sig.storage, c.storage, E));
      WorseSettles(n3, s3, e3, EvalFloat(sig.queue, c.queue, N), EvalFloat(sig.queue, c.queue, S),
                   EvalFloat(sig.queue, c.queue, E));
    }
  }

  /** Hysteresis has fixpoints: moving to the verdict does not change the verdict, and a worse state never
      gets a better one. Holds for every accepted configuration with sound dimensions and all signals. */
  lemma TargetIsFixpoint(c: Config, sig: Signals, s: State)
    requires ValidateConfig(c) && AllSound(c)
    ensures Target(c, sig, Target(c, sig, s)) == Target(c, sig, s)
    ensures forall s' :: Severity(s) <= Severity(s') ==> Severity(Target(c, sig, s)) <= Severity(Target(c, sig, s'))
  {
    hide Target;
    TargetSettles(c, sig);
  }

  predicate SignalsAtMost(a: Signals, b: Signals) {
    AtMost(a.cpu, b.cpu) && a.memory <= b.memory && AtMost(a.storage, b.storage) && AtMost(a.queue, b.queue)
  }

  lemma EvalMonotone(v: Float, w: Float, d: Dim, s: State)
    requires AtMost(v, w)
    ensures Severity(EvalFloat(v, d, s)) <= Severity(EvalFloat(w, d, s))
  {
  }

  /** More pressure never gives a better verdict, whatever the configuration. */
  lemma TargetIsMonotone(c: Config, a: Signals, b: Signals, s: State)
    requires SignalsAtMost(a, b) && ValidateSignals(a)
    ensures Severity(Target(c, a, s)) <= Severity(Target(c, b, s))
  {
    EvalMonotone(a.cpu, b.cpu, c.cpu, s);
    EvalMonotone(a.storage, b.storage, c.storage, s);
    EvalMonotone(a.queue, b.queue, c.queue, s);
    UintMonotone(a.memory, b.memory, c.memory, s);
    hide EvalFloat, EvalUint, ValidateSignals;
    WorstMonotone(EvalFloat(a.cpu, c.cpu, s), EvalUint(a.memory, c.memory, s), EvalFloat(a.storage, c.storage, s),
                  EvalFloat(a.queue, c.queue, s), EvalFloat(b.cpu, c.cpu, s), EvalUint(b.memory, c.memory, s),
                  EvalFloat(b.storage, c.storage, s), EvalFloat(b.queue, c.queue, s));
    hide Worse, Severity;
    assert Severity(EmergencyState) == 2 by { SeverityBound(EmergencyState); }
    SeverityBound(Target(c, a, s));
  }

  lemma SeverityBound(s: State)
    ensures Severity(s) <= 2 && Severity(EmergencyState) == 2
  {
  }

  lemma WorstMonotone(a: State, b: State, d: State, e: State, a': State, b': State, d': State, e': State)
    requires Severity(a) <= Severity(a') && Severity(b) <= Severity(b') && Severity(d) <= Severity(d')
            && Severity(e) <= Severity(e')
    ensures Severity(Worse(Worse(Worse(Worse(Normal, a), b), d), e))
            <= Severity(Worse(Worse(Worse(Worse(Normal, a'), b'), d'), e'))
  {
  }

  lemma UintMonotone(v: nat, w: nat, d: MemDim, s: State)
    requires v <= w
    ensures Severity(EvalUint(v, d, s)) <= Severity(EvalUint(w, d, s))
  {
  }

  // ----- Where hysteresis fails: NaN passes the configuration check -----

  ghost predicate AlwaysFixpoint(c: Config) {
    forall sig, s :: FixpointAt(c, sig, s)
  }

  predicate FixpointAt(c: Config, sig: Signals, s: State) {
    Target(c, sig, Target(c, sig, s)) == Target(c, sig, s)
  }

  /** The dimension enters SAVER at a number but has no margin to leave it by. */
  predicate Loose(d: Dim) {
    d.margin.NaN? && !d.saver.NaN?
  }

  /** The dimension never lets go of an emergency, whatever its value. */
  predicate Holds(d: Dim) {
    AtMost(Minus(d.emergency, d.margin), Num(0.0))
  }

  /** The dimension is in an emergency at any value unless it has just been in one. */
  predicate Low(d: Dim) {
    AtMost(d.emergency, Num(0.0))
  }

  predicate SomeHolds(c: Config) {
    Holds(c.cpu) || Holds(c.storage) || Holds(c.queue)
  }

  predicate SomeLow(c: Config) {
    Low(c.cpu) || Low(c.storage) || Low(c.queue)
  }

  predicate SomeLoose(c: Config) {
    Loose(c.cpu) || Loose(c.storage) || Loose(c.queue)
  }

  /** No NaN margin on a dimension that can fire; or emergencies last forever anyway, and either they are
      always entered or no dimension can enter SAVER without a margin. */
  predicate Stable(c: Config) {
    AllSound(c) || (SomeHolds(c) && (SomeLow(c) || !SomeLoose(c)))
  }

  lemma HeldEmergency(v: Float, d: Dim, top: real)
    requires ValidDim(d, Num(top)) && Holds(d) && !v.NaN? && !Less(v, Num(0.0))
    ensures EvalFloat(v, d, EmergencyState) == EmergencyState
  {
  }

  lemma LowEmergency(v: Float, d: Dim, s: State)
    requires Low(d) && !v.NaN? && !Less(v, Num(0.0)) && s != EmergencyState
    ensures EvalFloat(v, d, s) == EmergencyState
  {
  }

  /** Below an emergency a dimension that is not loose moves up with the state, and never into an emergency. */
  lemma NotLoose(v: Float, d: Dim, top: real)
    requires ValidDim(d, Num(top)) && !Loose(d) && !v.NaN?
    ensures var n, s := EvalFloat(v, d, Normal), EvalFloat(v, d, ResourceSaver);
            Severity(n) <= Severity(s) && (n == EmergencyState <==> s == EmergencyState)
  {
  }

  lemma HeldTarget(c: Config, sig: Signals)
    requires ValidateConfig(c) && SomeHolds(c)
    ensures Target(c, sig, EmergencyState) == EmergencyState
    ensures SomeLow(c) ==> Target(c, sig, Normal) == EmergencyState && Target(c, sig, ResourceSaver) == EmergencyState
  {
    hide ValidDim, EvalFloat, EvalUint, Holds, Low;
    if ValidateSignals(sig) {
      if Holds(c.cpu) { HeldEmergency(sig.cpu, c.cpu, 100.0); }
      if Holds(c.storage) { HeldEmergency(sig.storage, c.storage, 1.0); }
      if Holds(c.queue) { HeldEmergency(sig.queue, c.queue, 1.0); }
      if Low(c.cpu) { LowEmergency(sig.cpu, c.cpu, Normal); LowEmergency(sig.cpu, c.cpu, ResourceSaver); }
      if Low(c.storage) {
        LowEmergency(sig.storage, c.storage, Normal);
        LowEmergency(sig.storage, c.storage, ResourceSaver);
      }
      if Low(c.queue) { LowEmergency(sig.queue, c.queue, Normal); LowEmergency(sig.queue, c.queue, ResourceSaver); }
      hide ValidateSignals;
    }
  }

  lemma NoneLooseTarget(c: Config, sig: Signals)
    requires ValidateConfig(c) && !SomeLoose(c)
    ensures var n, s := Target(c, sig, Normal), Target(c, sig, ResourceSaver);
            Severity(n) <= Severity(s) && (n == EmergencyState <==> s == EmergencyState)
  {
    if ValidateSignals(sig) {
      NotLoose(sig.cpu, c.cpu, 100.0);
      NotLoose(sig.storage, c.storage, 1.0);
      NotLoose(sig.queue, c.queue, 1.0);
      UintSettles(sig.memory, c.memory);
      hide EvalFloat, EvalUint, ValidDim, ValidateSignals, ValidateConfig, Loose;
    }
  }

  lemma StableIsFixpoint(c: Config, sig: Signals, s: State)
    requires ValidateConfig(c) && Stable(c)
    ensures FixpointAt(c, sig, s)
  {
    hide Target, ValidateConfig, AllSound, SomeHolds, SomeLow, SomeLoose;
    if AllSound(c) {
      TargetIsFixpoint(c, sig, s);
    } else {
      HeldTarget(c, sig);
      if !SomeLow(c) { NoneLooseTarget(c, sig); }
    }
  }

  /** A dimension at rest at zero. */
  lemma AtZero(d: Dim, top: real)
    requires ValidDim(d, Num(top))
    ensures EvalFloat(Num(0.0), d, Normal) == EmergencyState <==> Low(d)
    ensures !Low(d) ==> EvalFloat(Num(0.0), d, ResourceSaver) == Normal
    ensures !Holds(d) ==> EvalFloat(Num(0.0), d, EmergencyState) == Normal
  {
  }

  lemma MemoryAtZero(c: Config, s: State)
    requires ValidateConfig(c)
    ensures EvalUint(0, c.memory, s) == Normal
  {
    hide ValidDim;
  }

  /** A reading at which an unsound dimension fires from NORMAL. */
  function Firing(d: Dim): Float {
    if d.saver.Num? then d.saver
    else if Less(Num(0.0), d.emergency) then d.emergency
    else Num(0.0)
  }

  lemma UnsoundFires(d: Dim, top: real)
    requires ValidDim(d, Num(top)) && !Sound(d) && top > 0.0
    ensures Firing(d).Num? && 0.0 <= Firing(d).r <= top
    ensures EvalFloat(Firing(d), d, EmergencyState) == Normal
    ensures EvalFloat(Firing(d), d, Normal) == if Loose(d) then ResourceSaver else EmergencyState
    ensures Loose(d) ==> EvalFloat(Firing(d), d, ResourceSaver) == Normal
  {
  }

  /** The unsound dimension to provoke: a loose one if there is one. */
  function Culprit(c: Config): nat {
    if Loose(c.cpu) then 0 else if Loose(c.storage) then 1 else if Loose(c.queue) then 2
    else if !Sound(c.cpu) then 0 else if !Sound(c.storage) then 1 else 2
  }

  function CulpritDim(c: Config): Dim {
    if Culprit(c) == 0 then c.cpu else if Culprit(c) == 1 then c.storage else c.queue
  }

  /** Signals at rest but for the culprit, which is at its firing point. */
  function FlapSignals(c: Config): Signals {
    var zero, v := Num(0.0), Firing(CulpritDim(c));
    if Culprit(c) == 0 then Signals(v, 0, zero, zero)
    else if Culprit(c) == 1 then Signals(zero, 0, v, zero)
    else Signals(zero, 0, zero, v)
  }

  /** The state the flapping signals lead to from NORMAL. */
  function FlapState(c: Config): State {
    Target(c, FlapSignals(c), Normal)
  }

  lemma CulpritIsUnsound(c: Config)
    requires !AllSound(c)
    ensures !Sound(CulpritDim(c)) && (Loose(CulpritDim(c)) <==> SomeLoose(c))
  {
  }

  lemma Flaps(c: Config)
    requires ValidateConfig(c) && !Stable(c)
    ensures FlapState(c) != Normal && Target(c, FlapSignals(c), FlapState(c)) == Normal
  {
    hide FlapState, Target, FlapSignals, ValidateConfig, AllSound, SomeHolds, SomeLow, SomeLoose, CulpritDim;
    FlapsUp(c);
    if FlapState(c) == EmergencyState {
      FallsFromEmergency(c);
    } else {
      FallsFromSaver(c);
    }
  }

  lemma FlapsUp(c: Config)
    requires ValidateConfig(c) && !AllSound(c)
    ensures FlapState(c) != Normal
    ensures FlapState(c) != EmergencyState ==> !SomeLow(c) && Loose(CulpritDim(c))
    ensures FlapState(c) == EmergencyState ==> SomeLow(c) || !SomeLoose(c)
  {
    CulpritIsUnsound(c);
    AtZero(c.cpu, 100.0); AtZero(c.storage, 1.0); AtZero(c.queue, 1.0);
    UnsoundFires(CulpritDim(c), if Culprit(c) == 0 then 100.0 else 1.0);
    hide EvalFloat, EvalUint, ValidDim, Loose, Sound, Holds, Low, Firing;
    MemoryAtZero(c, Normal);
    FlapSignalsValid(c);
    hide ValidateSignals;
    WorstOf(EvalFloat(FlapSignals(c).cpu, c.cpu, Normal), EvalUint(0, c.memory, Normal),
            EvalFloat(FlapSignals(c).storage, c.storage, Normal), EvalFloat(FlapSignals(c).queue, c.queue, Normal));
    hide Worse;
  }

  lemma FlapSignalsValid(c: Config)
    requires ValidateConfig(c) && !AllSound(c)
    ensures ValidateSignals(FlapSignals(c))
  {
    CulpritIsUnsound(c);
    UnsoundFires(CulpritDim(c), if Culprit(c) == 0 then 100.0 else 1.0);
    hide EvalFloat, ValidDim, Loose, Sound, Firing;
  }

  lemma FallsFromEmergency(c: Config)
    requires ValidateConfig(c) && !AllSound(c) && !SomeHolds(c)
    ensures Target(c, FlapSignals(c), EmergencyState) == Normal
  {
    CulpritIsUnsound(c);
    AtZero(c.cpu, 100.0); AtZero(c.storage, 1.0); AtZero(c.queue, 1.0);
    UnsoundFires(CulpritDim(c), if Culprit(c) == 0 then 100.0 else 1.0);
    MemoryAtZero(c, EmergencyState);
    hide EvalFloat, EvalUint, ValidDim, Loose, Sound, Holds, Low, Firing;
    FlapSignalsValid(c);
  }

  lemma FallsFromSaver(c: Config)
    requires ValidateConfig(c) && !AllSound(c) && !SomeLow(c) && Loose(CulpritDim(c))
    ensures Target(c, FlapSignals(c), ResourceSaver) == Normal
  {
    CulpritIsUnsound(c);
    AtZero(c.cpu, 100.0); AtZero(c.storage, 1.0); AtZero(c.queue, 1.0);
    UnsoundFires(CulpritDim(c), if Culprit(c) == 0 then 100.0 else 1.0);
    MemoryAtZero(c, ResourceSaver);
    hide EvalFloat, EvalUint, ValidDim, Loose, Sound, Holds, Low, Firing;
    FlapSignalsValid(c);
  }

  lemma WorstOf(a: State, b: State, d: State, e: State)
    ensures var w := Worse(Worse(Worse(Worse(Normal, a), b), d), e);
            && (w == EmergencyState <==> EmergencyState in {a, b, d, e})
            && (w == Normal <==> a == b == d == e == Normal)
  {
  }

  /** For the accepted configurations the verdict is always a fixpoint exactly if the configuration is
      stable; the check asks nothing of the kind, since comparisons with NaN are false. */
  lemma FixpointExactlyIfStable(c: Config)
    requires ValidateConfig(c)
    ensures AlwaysFixpoint(c) <==> Stable(c)
  {
    hide Target, ValidateConfig, Stable;
    if Stable(c) {
      forall sig, s ensures FixpointAt(c, sig, s) { StableIsFixpoint(c, sig, s); }
    } else {
      Flaps(c);
      assert !FixpointAt(c, FlapSignals(c), Normal);
    }
  }

  ghost predicate AlwaysMonotone(c: Config) {
    forall sig, s, s' :: MonotoneAt(c, sig, s, s')
  }

  predicate MonotoneAt(c: Config, sig: Signals, s: State, s': State) {
    Severity(s) <= Severity(s') ==> Severity(Target(c, sig, s)) <= Severity(Target(c, sig, s'))
  }

  lemma StableIsMonotone(c: Config, sig: Signals, s: State, s': State)
    requires ValidateConfig(c) && Stable(c)
    ensures MonotoneAt(c, sig, s, s')
  {
    hide Target, ValidateConfig, AllSound, SomeHolds, SomeLow, SomeLoose;
    if AllSound(c) {
      TargetIsFixpoint(c, sig, s);
    } else {
      HeldTarget(c, sig);
      if !SomeLow(c) { NoneLooseTarget(c, sig); }
    }
  }

  /** The same check decides whether a worse state never gets a better verdict. */
  lemma MonotoneExactlyIfStable(c: Config)
    requires ValidateConfig(c)
    ensures AlwaysMonotone(c) <==> Stable(c)
  {
    hide Target, ValidateConfig, Stable;
    if Stable(c) {
      forall sig, s, s' ensures MonotoneAt(c, sig, s, s') { StableIsMonotone(c, sig, s, s'); }
    } else {
      Flaps(c);
      NormalLeads(c);
      hide FlapState, FlapSignals;
      assert !MonotoneAt(c, FlapSignals(c), Normal, FlapState(c));
    }
  }

  /** A CPU margin of NaN between ordinary dimensions is accepted and not stable. */
  const NAN_MARGIN := Config(Dim(Num(80.0), Num(90.0), NaN), MemDim(100, 200, 10), Dim(Num(0.8), Num(0.9), Num(0.1)),
                             Dim(Num(0.8), Num(0.9), Num(0.1)), 60)

  lemma NaNMarginIsAccepted()
    ensures ValidateConfig(NAN_MARGIN) && !Stable(NAN_MARGIN)
  {
  }

  // ----- Runs -----

  datatype Reading = Reading(sig: Signals, now: Time)

  /** The governor after the first n readings. */
  function At(c: Config, g: Gov, rs: seq<Reading>, n: nat): Gov
    requires n <= |rs|
  {
    if n == 0 then g else Evaluate(c, At(c, g, rs, n - 1), rs[n - 1].sig, rs[n - 1].now)
  }

  /** Steps down, and steps up, among the first n readings. */
  function Downs(c: Config, g: Gov, rs: seq<Reading>, n: nat): nat
    requires n <= |rs|
  {
    if n == 0 then 0
    else Downs(c, g, rs, n - 1)
         + if Severity(At(c, g, rs, n).state) < Severity(At(c, g, rs, n - 1).state) then 1 else 0
  }

  function Ups(c: Config, g: Gov, rs: seq<Reading>, n: nat): nat
    requires n <= |rs|
  {
    if n == 0 then 0
    else Ups(c, g, rs, n - 1)
         + if Severity(At(c, g, rs, n).state) > Severity(At(c, g, rs, n - 1).state) then 1 else 0
  }

  ghost predicate ClockRuns(rs: seq<Reading>) {
    forall i, j | 0 <= i <= j < |rs| :: rs[i].now <= rs[j].now
  }

  /** Each step down consumes a full recovery duration of the clock; a running timer marks how much of it
      has been spent so far. */
  lemma {:induction false} DownsAreSpaced(c: Config, s0: State, rs: seq<Reading>, n: nat)
    requires 0 < n <= |rs| && ClockRuns(rs) && c.recoveryDuration > 0
    ensures var g := At(c, Gov(s0, 0), rs, n);
            var spent := Downs(c, Gov(s0, 0), rs, n) * c.recoveryDuration;
            && spent <= rs[n - 1].now - rs[0].now
            && (g.timer != 0 ==> spent <= g.timer - rs[0].now && g.timer <= rs[n - 1].now)
  {
    hide Target, Evaluate;
    var g0 := Gov(s0, 0);
    var before := At(c, g0, rs, n - 1);
    StepSpends(c, before, rs[n - 1].sig, rs[n - 1].now);
    if n == 1 {
      assert At(c, g0, rs, 0) == g0 && Downs(c, g0, rs, 0) == 0;
    } else {
      DownsAreSpaced(c, s0, rs, n - 1);
      assert rs[n - 2].now <= rs[n - 1].now;
      var d := Downs(c, g0, rs, n - 1);
      assert (d + 1) * c.recoveryDuration == d * c.recoveryDuration + c.recoveryDuration;
    }
  }

  /** A step down takes a timer a full recovery duration old; no other step moves a running timer. */
  lemma StepSpends(c: Config, g: Gov, sig: Signals, now: Time)
    requires c.recoveryDuration > 0
    ensures var g' := Evaluate(c, g, sig, now);
            && (Severity(g'.state) < Severity(g.state) ==>
                  g.timer != 0 && g.timer + c.recoveryDuration <= now && g'.timer == 0)
            && (g'.timer != 0 ==> g'.state == g.state && g'.timer == if g.timer == 0 then now else g.timer)
  {
    hide Target;
  }

  /** Steps up are paid for by severity: each raises it by one or two, each step down lowers it by at most two. */
  lemma {:induction false} UpsAreAmortised(c: Config, g: Gov, rs: seq<Reading>, n: nat)
    requires n <= |rs|
    ensures Ups(c, g, rs, n) + Severity(g.state) <= Severity(At(c, g, rs, n).state) + 2 * Downs(c, g, rs, n)
  {
    hide Target;
    if n > 0 {
      UpsAreAmortised(c, g, rs, n - 1);
    }
  }

  /** Anti-flapping: over any run with a clock that never goes back, the governor changes state at most
      2 + 3 * floor(elapsed / RecoveryDuration) times, whatever the signals. */
  lemma TransitionsAreBounded(c: Config, s0: State, rs: seq<Reading>)
    requires rs != [] && ClockRuns(rs) && c.recoveryDuration > 0
    ensures var elapsed := rs[|rs| - 1].now - rs[0].now;
            Ups(c, Gov(s0, 0), rs, |rs|) + Downs(c, Gov(s0, 0), rs, |rs|)
            <= 2 - Severity(s0) + 3 * (elapsed / c.recoveryDuration)
  {
    hide At, Downs, Ups, ClockRuns;
    var g0 := Gov(s0, 0);
    var elapsed := rs[|rs| - 1].now - rs[0].now;
    DownsAreSpaced(c, s0, rs, |rs|);
    UpsAreAmortised(c, g0, rs, |rs|);
    FloorBound(Downs(c, g0, rs, |rs|), elapsed, c.recoveryDuration);
    assert Severity(At(c, g0, rs, |rs|).state) <= 2;
  }

  lemma FloorBound(d: nat, elapsed: int, duration: int)
    requires duration > 0 && d * duration <= elapsed
    ensures d <= elapsed / duration
  {
    var q := elapsed / duration;
    assert elapsed < (q + 1) * duration;
    MulOrder(d, q + 1, duration);
  }

  lemma MulOrder(a: int, b: int, k: int)
    requires k > 0
    ensures a * k < b * k ==> a < b
  {
    if a >= b {
      assert (a - b) * k >= 0;
    }
  }

  /** From reading j to reading i every target lay strictly below the one state the governor was in. */
  ghost predicate Below(c: Config, g: Gov, rs: seq<Reading>, j: nat, i: nat) {
    && j <= i <= |rs|
    && forall k | j <= k < i ::
         && At(c, g, rs, k).state == At(c, g, rs, i).state
         && Severity(Target(c, rs[k].sig, At(c, g, rs, k).state)) < Severity(At(c, g, rs, k).state)
  }

  lemma TimerRuns(c: Config, g: Gov, sig: Signals, now: Time)
    ensures var g' := Evaluate(c, g, sig, now);
            g'.timer != 0 ==>
              && g'.state == g.state
              && Severity(Target(c, sig, g.state)) < Severity(g.state)
              && g'.timer == if g.timer == 0 then now else g.timer
  {
    hide Target;
  }

  lemma BelowExtends(c: Config, g: Gov, rs: seq<Reading>, j: nat, n: nat)
    requires n < |rs| && Below(c, g, rs, j, n)
    requires At(c, g, rs, n + 1).state == At(c, g, rs, n).state
    requires Severity(Target(c, rs[n].sig, At(c, g, rs, n).state)) < Severity(At(c, g, rs, n).state)
    ensures Below(c, g, rs, j, n + 1)
  {
    hide At, Target;
  }

  /** A running timer was started by some earlier reading, and all targets since then were below; it never
      runs in NORMAL. */
  lemma {:induction false} TimerHasHistory(c: Config, s0: State, rs: seq<Reading>, n: nat)
    requires n <= |rs|
    ensures var g := At(c, Gov(s0, 0), rs, n);
            g.timer != 0 ==>
              && g.state != Normal
              && exists j: nat | j < n :: rs[j].now == g.timer && Below(c, Gov(s0, 0), rs, j, n)
  {
    hide Target, Evaluate, Below;
    var g0 := Gov(s0, 0);
    if n > 0 {
      TimerHasHistory(c, s0, rs, n - 1);
      var before := At(c, g0, rs, n - 1);
      TimerRuns(c, before, rs[n - 1].sig, rs[n - 1].now);
      if At(c, g0, rs, n).timer != 0 {
        var j: nat := n - 1;
        if before.timer == 0 {
          StartsBelow(c, g0, rs, j);
        } else {
          j :| j < n - 1 && rs[j].now == before.timer && Below(c, g0, rs, j, n - 1);
        }
        BelowExtends(c, g0, rs, j, n - 1);
      }
    }
  }

  lemma StartsBelow(c: Config, g: Gov, rs: seq<Reading>, j: nat)
    requires j <= |rs|
    ensures Below(c, g, rs, j, j)
  {
  }

  /** Dwell: whenever the governor steps down at reading n, there is an earlier reading, at least a recovery
      duration older, from which on every target, this one included, lay below the state it leaves; and it
      moves to the target of this last reading. */
  lemma StepDownHasDwelt(c: Config, s0: State, rs: seq<Reading>, n: nat)
    requires n < |rs|
    requires Severity(At(c, Gov(s0, 0), rs, n + 1).state) < Severity(At(c, Gov(s0, 0), rs, n).state)
    ensures var g := At(c, Gov(s0, 0), rs, n);
            && At(c, Gov(s0, 0), rs, n + 1).state == Target(c, rs[n].sig, g.state)
            && Severity(Target(c, rs[n].sig, g.state)) < Severity(g.state)
            && exists j: nat | j < n ::
                 rs[n].now - rs[j].now >= c.recoveryDuration && Below(c, Gov(s0, 0), rs, j, n)
  {
    hide Target;
    TimerHasHistory(c, s0, rs, n);
  }

  ghost predicate Constant(rs: seq<Reading>, sig: Signals) {
    forall r | r in rs :: r.sig == sig
  }

  /** Under constant signals a stable configuration changes state at most once; by the lemma below no other
      accepted configuration has that property. */
  lemma {:induction false} ConstantSignalsSettle(c: Config, g: Gov, rs: seq<Reading>, sig: Signals, n: nat)
    requires n <= |rs| && ValidateConfig(c) && Stable(c) && Constant(rs, sig)
    ensures Ups(c, g, rs, n) + Downs(c, g, rs, n) <= 1
    ensures Ups(c, g, rs, n) + Downs(c, g, rs, n) == 0 ==> At(c, g, rs, n).state == g.state
    ensures Ups(c, g, rs, n) + Downs(c, g, rs, n) == 1 ==> At(c, g, rs, n).state == Target(c, sig, g.state)
  {
    hide Target, Stable, ValidateConfig;
    if n > 0 {
      ConstantSignalsSettle(c, g, rs, sig, n - 1);
      assert rs[n - 1] in rs;
      StableIsFixpoint(c, sig, g.state);
    }
  }

  /** A clock ticking once per recovery duration. */
  function Ticks(c: Config, sig: Signals, n: nat): seq<Reading> {
    seq(n, i requires 0 <= i < n => Reading(sig, (i + 1) * (c.recoveryDuration + 1)))
  }

  /** An unstable configuration, once accepted, flaps for as long as the clock runs: under constant signals the governor
      goes up, starts its timer, comes down, and starts again, two changes in every three readings. */
  lemma {:induction false} UnstableFlapsForever(c: Config, n: nat, cycles: nat)
    requires ValidateConfig(c) && !Stable(c)
    requires 3 * cycles <= n
    ensures var rs := Ticks(c, FlapSignals(c), n);
            && At(c, START, rs, 3 * cycles) == START
            && Ups(c, START, rs, 3 * cycles) == cycles && Downs(c, START, rs, 3 * cycles) == cycles
    decreases cycles
  {
    hide Target, FlapSignals, FlapState, Stable, ValidDim;
    var rs := Ticks(c, FlapSignals(c), n);
    if cycles > 0 {
      var m := 3 * (cycles - 1);
      UnstableFlapsForever(c, n, cycles - 1);
      var up := Gov(FlapState(c), 0);
      var waiting := Gov(FlapState(c), rs[m + 1].now);
      TickApart(c, m);
      Cycle(c, rs[m].now, rs[m + 1].now, rs[m + 2].now);
      hide Evaluate;
      assert At(c, START, rs, m + 1) == up;
      assert At(c, START, rs, m + 2) == waiting;
      assert At(c, START, rs, m + 3) == START;
      assert Ups(c, START, rs, m + 1) == cycles && Downs(c, START, rs, m + 1) == cycles - 1;
      assert Ups(c, START, rs, m + 2) == cycles && Downs(c, START, rs, m + 2) == cycles - 1;
    }
  }

  lemma NormalLeads(c: Config)
    ensures Target(c, FlapSignals(c), Normal) == FlapState(c)
  {
  }

  lemma Cycle(c: Config, t1: Time, t2: Time, t3: Time)
    requires ValidateConfig(c) && !Stable(c)
    requires t2 != 0 && t3 - t2 >= c.recoveryDuration
    ensures Evaluate(c, START, FlapSignals(c), t1) == Gov(FlapState(c), 0)
    ensures Evaluate(c, Gov(FlapState(c), 0), FlapSignals(c), t2) == Gov(FlapState(c), t2)
    ensures Evaluate(c, Gov(FlapState(c), t2), FlapSignals(c), t3) == START
    ensures Severity(FlapState(c)) > 0
  {
    hide Target, FlapSignals, FlapState;
    Flaps(c);
    NormalLeads(c);
  }

  lemma TickApart(c: Config, m: nat)
    requires c.recoveryDuration > 0
    ensures (m + 2) * (c.recoveryDuration + 1) != 0
    ensures (m + 3) * (c.recoveryDuration + 1) - (m + 2) * (c.recoveryDuration + 1) >= c.recoveryDuration
  {
    var d := c.recoveryDuration + 1;
    assert (m + 3) * d == (m + 2) * d + d;
  }
}
