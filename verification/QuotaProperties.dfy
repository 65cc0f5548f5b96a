/** What the quota sweep may and may not delete, and how it accounts for what it deletes. */
module QuotaProperties {
  import opened Events
  import opened Storage

  // ----- The quota sweep -----

  function ClassRank(s: Severity): nat {
    match s
    case Debug => 0
    case Info => 1
    case Warning => 2
    case _ => 3
  }

  /** The order in which rows are given up: lowest class first, oldest first within a class. */
  predicate GivenUpBefore(a: Row, b: Row) {
    ClassRank(a.severity) < ClassRank(b.severity)
    || (ClassRank(a.severity) == ClassRank(b.severity) && a.seqNo < b.seqNo)
  }

  /** t' is t less an initial segment of the prunable rows in the order above. */
  ghost predicate PrunedFrom(t: Table, t': Table) {
    && t'.Keys <= t.Keys
    && (forall id | id in t' :: t'[id] == t[id])
    && (forall a | a in t && a !in t' :: ClassRank(t[a].severity) < 3)
    && (forall a, b | a in t && a !in t' && b in t' :: GivenUpBefore(t[a], t[b]))
  }

  lemma PrunedTransitive(t: Table, t1: Table, t2: Table)
    requires PrunedFrom(t, t1) && PrunedFrom(t1, t2)
    ensures PrunedFrom(t, t2)
  {
  }

  /** No row of a class below the i-th is present. */
  ghost predicate FromClass(t: Table, i: nat) {
    forall id | id in t :: i <= ClassRank(t[id].severity)
  }

  lemma BatchIsPruned(t: Table, i: nat)
    requires i < 3 && FromClass(t, i)
    ensures PrunedFrom(t, Without(t, IdSet(Batch(t, PRUNABLE[i]))))
  {
    hide Oldest;
    var ids := Batch(t, PRUNABLE[i]);
    forall a, b | a in ids && b in t && b !in ids ensures GivenUpBefore(t[a], t[b]) {
      if ClassRank(t[b].severity) == i { assert b in OfClass(t, PRUNABLE[i]); }
    }
  }

  lemma RoundPrunes(db: Db, i: nat, estimate: int, quota: int, p: Probe)
    requires i < 3 && FromClass(db.events, i)
    ensures match PruneRound(db, PRUNABLE[i], estimate, quota, p)
            case Stop(s) => PrunedFrom(db.events, s.db.events) && SameBeside(db, s.db) && !s.result.Exhausted?
            case NextClass => FromClass(db.events, i + 1)
            case Repeat(db') => PrunedFrom(db.events, db'.events) && SameBeside(db, db')
  {
    hide Oldest;
    BatchIsPruned(db.events, i);
    if OfClass(db.events, PRUNABLE[i]) == {} {
      forall id | id in db.events ensures i + 1 <= ClassRank(db.events[id].severity) {
        assert id !in OfClass(db.events, PRUNABLE[i]);
      }
    }
  }

  /** Equal but for the events table and the drop accounting. */
  predicate SameBeside(a: Db, b: Db) {
    a.dlq == b.dlq && a.nextSeqNo == b.nextSeqNo
  }

  ghost predicate NonePrunable(t: Table) {
    forall id | id in t :: ClassRank(t[id].severity) == 3
  }

  /** Whatever the size readings and faults, the sweep changes no row it keeps, deletes only prunable
      rows, and gives rows up class by class and oldest first. It declares the store exhausted only
      when no prunable row is left, a reading taken after that still exceeds the quota, and the
      incoming event is not CRITICAL or FATAL. */
  lemma {:induction false} SweepPrunes(db: Db, i: nat, incoming: Severity, estimate: int, quota: int, disk: Disk,
                                       k: nat)
    requires i <= 3 && FromClass(db.events, i)
    ensures var s := Sweep(db, i, incoming, estimate, quota, disk, k);
            && PrunedFrom(db.events, s.db.events)
            && SameBeside(db, s.db)
            && (s.result.Exhausted? ==>
                  && NonePrunable(s.db.events)
                  && incoming != Critical && incoming != Fatal
                  && s.db.pressure == Emergency
                  && exists j | k <= j :: SizeOrZero(disk(j)) + estimate >= quota)
    decreases 3 - i, |db.events|
  {
    hide PruneRound;
    if i < 3 {
      RoundPrunes(db, i, estimate, quota, disk(k));
      match PruneRound(db, PRUNABLE[i], estimate, quota, disk(k))
      case Stop(_) =>
      case NextClass => SweepPrunes(db, i + 1, incoming, estimate, quota, disk, k + 1);
      case Repeat(db') =>
        RepeatShrinks(db, PRUNABLE[i], estimate, quota, disk(k));
        SweepPrunes(db', i, incoming, estimate, quota, disk, k + 1);
        PrunedTransitive(db.events, db'.events, Sweep(db', i, incoming, estimate, quota, disk, k + 1).db.events);
    }
  }

  // ----- Drop accounting -----

  lemma BatchSize(t: Table, ids: seq<EventId>)
    requires forall id | id in ids :: id in t
    requires Ascending(t, ids)
    ensures |Without(t, IdSet(ids))| == |t| - |ids|
  {
    DistinctSize(ids);
    var t' := Without(t, IdSet(ids));
    assert t'.Keys == t.Keys - IdSet(ids);
    assert |t'.Keys| == |t'| && |t.Keys| == |t|;
    assert IdSet(ids) <= t.Keys;
  }

  lemma {:induction false} DistinctSize(ids: seq<EventId>)
    requires forall i, j | 0 <= i < j < |ids| :: ids[i] != ids[j]
    ensures |IdSet(ids)| == |ids|
  {
    if ids != [] {
      var init, last := ids[..|ids| - 1], ids[|ids| - 1];
      DistinctSize(init);
      assert IdSet(ids) == IdSet(init) + {last};
      assert last !in IdSet(init);
    }
  }

  /** The rows a database holds plus the rows it has counted as dropped. */
  function Accounted(db: Db): int {
    |db.events| + db.dropped.total
  }

  /** The rows of one class a database holds plus those it has counted as dropped. */
  function AccountedOf(db: Db, c: Severity): int {
    |OfClass(db.events, c)| + match c
                              case Debug => db.dropped.debug
                              case Info => db.dropped.info
                              case Warning => db.dropped.warning
                              case _ => 0
  }

  /** Total minus the class counters; zero in every reachable state. */
  function Unattributed(d: Dropped): int {
    d.total - d.debug - d.info - d.warning
  }

  ghost predicate CountersHold(disk: Disk) {
    forall j :: !disk(j).fault.CounterFails?
  }

  lemma BatchOfClass(t: Table, ids: seq<EventId>, s: Severity, c: Severity)
    requires forall id | id in ids :: id in t && t[id].severity == s
    requires Ascending(t, ids)
    ensures |OfClass(Without(t, IdSet(ids)), c)| == |OfClass(t, c)| - if c == s then |ids| else 0
  {
    DistinctSize(ids);
    ClassLess(t, IdSet(ids), s, c);
  }

  lemma ClassLess(t: Table, gone: set<EventId>, s: Severity, c: Severity)
    requires forall id | id in gone :: id in t && t[id].severity == s
    ensures |OfClass(Without(t, gone), c)| == |OfClass(t, c)| - if c == s then |gone| else 0
  {
    if c == s {
      assert gone <= OfClass(t, c);
      assert OfClass(Without(t, gone), c) == OfClass(t, c) - gone;
    } else {
      assert OfClass(Without(t, gone), c) == OfClass(t, c);
    }
  }

  lemma RoundAccounts(db: Db, i: nat, estimate: int, quota: int, p: Probe, c: Severity)
    requires i < 3
    ensures match PruneRound(db, PRUNABLE[i], estimate, quota, p)
            case Stop(s) =>
              && Accounted(db) == Accounted(s.db) + s.uncounted
              && Unattributed(s.db.dropped) == Unattributed(db.dropped)
              && (s.uncounted == 0 ==> AccountedOf(s.db, c) == AccountedOf(db, c))
              && (s.uncounted > 0 <==> p.fault.CounterFails? && s.result.Refused? && s.db != db)
            case NextClass => true
            case Repeat(db') =>
              && Accounted(db') == Accounted(db)
              && AccountedOf(db', c) == AccountedOf(db, c)
              && Unattributed(db'.dropped) == Unattributed(db.dropped)
  {
    hide Oldest, OfClass, Batch, Without, IdSet, Ascending, NoneOlder;
    var ids := Batch(db.events, PRUNABLE[i]);
    BatchSize(db.events, ids);
    BatchOfClass(db.events, ids, PRUNABLE[i], c);
  }

  /** The rows the sweep deletes are all counted, in total and under their class, except the rows of the
      one batch whose counter update failed; that batch exists only if some counter update fails. */
  lemma {:induction false} SweepAccounts(db: Db, i: nat, incoming: Severity, estimate: int, quota: int, disk: Disk,
                                         k: nat, c: Severity)
    requires i <= 3
    ensures var s := Sweep(db, i, incoming, estimate, quota, disk, k);
            && Accounted(db) == Accounted(s.db) + s.uncounted
            && Unattributed(s.db.dropped) == Unattributed(db.dropped)
            && (s.uncounted == 0 ==> AccountedOf(s.db, c) == AccountedOf(db, c))
            && (CountersHold(disk) ==> s.uncounted == 0)
    decreases 3 - i, |db.events|
  {
    hide PruneRound;
    if i < 3 {
      RoundAccounts(db, i, estimate, quota, disk(k), c);
      match PruneRound(db, PRUNABLE[i], estimate, quota, disk(k))
      case Stop(_) =>
      case NextClass => SweepAccounts(db, i + 1, incoming, estimate, quota, disk, k + 1, c);
      case Repeat(db') =>
        RepeatShrinks(db, PRUNABLE[i], estimate, quota, disk(k));
        SweepAccounts(db', i, incoming, estimate, quota, disk, k + 1, c);
    }
  }

  /** The sweep's guarantees for the whole quota check, with the converse for an event below the quota. */
  lemma QuotaSpec(db: Db, incoming: Severity, estimate: int, quota: int, disk: Disk, c: Severity)
    ensures var s := EnforceQuota(db, incoming, estimate, quota, disk);
            && PrunedFrom(db.events, s.db.events)
            && SameBeside(db, s.db)
            && Accounted(db) == Accounted(s.db) + s.uncounted
            && Unattributed(s.db.dropped) == Unattributed(db.dropped)
            && (s.uncounted == 0 ==> AccountedOf(s.db, c) == AccountedOf(db, c))
            && (CountersHold(disk) ==> s.uncounted == 0)
            && (s.result.Exhausted? ==> NonePrunable(s.db.events) && incoming != Critical && incoming != Fatal)
            && (disk(0).size.Some? && disk(0).size.value + estimate < quota ==> s == Swept(db, Fits, 0))
  {
    SweepPrunes(db, 0, incoming, estimate, quota, disk, 1);
    SweepAccounts(db, 0, incoming, estimate, quota, disk, 1, c);
  }

  // ----- When pruning stops -----

  /** The size read, or nothing when it cannot be read, and what the event adds to it. */
  function Reading(p: Probe, estimate: int): int {
    (if p.size.Some? then p.size.value else 0) + estimate
  }

  /** The reading is below nine tenths of the quota, truncated toward zero. */
  predicate Relieved(p: Probe, estimate: int, quota: int) {
    if quota >= 0 then 10 * (Reading(p, estimate) + 1) <= 9 * quota else 10 * Reading(p, estimate) < 9 * quota
  }

  lemma LowWaterExactly(p: Probe, estimate: int, quota: int)
    ensures SizeOrZero(p) + estimate < LowWater(quota) <==> Relieved(p, estimate, quota)
  {
  }

  /** t' is t less rows of one class, the oldest, fifty of them if there are as many. */
  ghost predicate TakesOldest(t: Table, s: Severity, t': Table) {
    var c := set id | id in t && t[id].severity == s;
    && t'.Keys <= t.Keys
    && |t'| == |t| - (if |c| <= 50 then |c| else 50)
    && (forall id | id in t' :: t'[id] == t[id])
    && (forall a | a in t && a !in t' :: a in c)
    && (forall a, b | a in c && a !in t' && b in c && b in t' :: t[a].seqNo < t[b].seqNo)
  }

  lemma BatchTakesOldest(t: Table, s: Severity)
    ensures TakesOldest(t, s, Without(t, IdSet(Batch(t, s))))
    ensures Batch(t, s) == [] <==> forall id | id in t :: t[id].severity != s
  {
    hide Oldest, Batch;
    var ids := Batch(t, s);
    BatchLength(t, s);
    BatchSize(t, ids);
  }

  lemma BatchLength(t: Table, s: Severity)
    ensures var c := set id | id in t && t[id].severity == s;
            OfClass(t, s) == c && |Batch(t, s)| == if |c| <= 50 then |c| else 50
  {
    hide Oldest;
  }

  function Counted(d: Dropped, s: Severity, n: nat): Dropped {
    Dropped(if s in {Debug, Info, Warning} then d.total + n else d.total,
            if s == Debug then d.debug + n else d.debug,
            if s == Info then d.info + n else d.info,
            if s == Warning then d.warning + n else d.warning)
  }

  lemma CountedExactly(d: Dropped, s: Severity, n: nat)
    ensures CountDropped(d, s, n) == Counted(d, s, n)
  {
  }

  /** One reading on one class. A relieved reading stops the sweep with nothing done, and only such a one stops it
      with Fits; the fault of a statement stops it with a refusal. Otherwise the oldest rows of the class go, fifty
      of them if there are as many, and are counted under the class, or there are none and it is the next class's
      turn. */
  lemma RoundExactly(db: Db, s: Severity, estimate: int, quota: int, p: Probe)
    ensures var relieved := Relieved(p, estimate, quota);
            match PruneRound(db, s, estimate, quota, p)
            case Stop(r) =>
              && (relieved ==> r == Swept(db, Fits, 0))
              && (!relieved ==> r.result.Refused? && !p.fault.NoFault? && r.result.cause == p.fault.cause)
              && (!relieved && p.fault.StatementFails? ==> r.db == db)
              && (!relieved && !p.fault.StatementFails? ==> TakesOldest(db.events, s, r.db.events))
            case NextClass =>
              !relieved && !p.fault.StatementFails? && forall id | id in db.events :: db.events[id].severity != s
            case Repeat(db') =>
              && !relieved && p.fault.NoFault?
              && TakesOldest(db.events, s, db'.events) && |db'.events| < |db.events|
              && db' == db.(events := db'.events, pressure := Pruning,
                            dropped := Counted(db.dropped, s, |db.events| - |db'.events|))
  {
    hide LowWater, Relieved, Batch, SizeOrZero, Without, IdSet, TakesOldest, Ascending, NoneOlder, CountDropped;
    LowWaterExactly(p, estimate, quota);
    BatchTakesOldest(db.events, s);
    BatchSize(db.events, Batch(db.events, s));
    CountedExactly(db.dropped, s, |Batch(db.events, s)|);
  }

  /** No reading from k on, up to but not including j, is relieved. */
  ghost predicate PressedUntil(disk: Disk, estimate: int, quota: int, k: nat, j: nat) {
    forall x | k <= x < j :: !Relieved(disk(x), estimate, quota)
  }

  ghost predicate NoFaults(disk: Disk) {
    forall j :: disk(j).fault.NoFault?
  }

  /** The first relieved reading ends the sweep, so no batch is deleted at a relieved reading or after one: at most
      fifty rows go for each reading before it. */
  lemma {:induction false} SweepStops(db: Db, i: nat, incoming: Severity, estimate: int, quota: int, disk: Disk,
                                      k: nat, j: nat)
    requires i <= 3 && k <= j && Relieved(disk(j), estimate, quota)
    ensures var s := Sweep(db, i, incoming, estimate, quota, disk, k);
            && |db.events| - |s.db.events| <= 50 * (j - k)
            && (i < 3 && j == k ==> s == Swept(db, Fits, 0))
    decreases j - k
  {
    hide PruneRound, Relieved;
    if i < 3 {
      RoundExactly(db, PRUNABLE[i], estimate, quota, disk(k));
      if k < j {
        match PruneRound(db, PRUNABLE[i], estimate, quota, disk(k))
        case Stop(_) =>
        case NextClass => SweepStops(db, i + 1, incoming, estimate, quota, disk, k + 1, j);
        case Repeat(db') => SweepStops(db', i, incoming, estimate, quota, disk, k + 1, j);
      }
    }
  }

  /** It stops no earlier: it lets the event in with prunable rows left exactly at a relieved reading, the first
      there is, and refuses only for a fault. So without faults and relief every prunable row goes. */
  lemma {:induction false} SweepGoesOn(db: Db, i: nat, incoming: Severity, estimate: int, quota: int, disk: Disk,
                                       k: nat)
    requires i <= 3 && FromClass(db.events, i)
    ensures var s := Sweep(db, i, incoming, estimate, quota, disk, k);
            && (s.result.Fits? && !NonePrunable(s.db.events) ==>
                  exists j | k <= j :: Relieved(disk(j), estimate, quota) && PressedUntil(disk, estimate, quota, k, j))
            && (s.result.Refused? ==> exists j | k <= j :: !disk(j).fault.NoFault?)
            && (NoFaults(disk) && (forall j | k <= j :: !Relieved(disk(j), estimate, quota)) ==>
                  NonePrunable(s.db.events))
    decreases 3 - i, |db.events|
  {
    hide PruneRound, Relieved;
    if i < 3 {
      RoundExactly(db, PRUNABLE[i], estimate, quota, disk(k));
      RoundPrunes(db, i, estimate, quota, disk(k));
      match PruneRound(db, PRUNABLE[i], estimate, quota, disk(k))
      case Stop(s) =>
        if s.result.Fits? { assert PressedUntil(disk, estimate, quota, k, k); }
      case NextClass =>
        SweepGoesOn(db, i + 1, incoming, estimate, quota, disk, k + 1);
        PressedLonger(disk, estimate, quota, k);
      case Repeat(db') =>
        RepeatShrinks(db, PRUNABLE[i], estimate, quota, disk(k));
        SweepGoesOn(db', i, incoming, estimate, quota, disk, k + 1);
        PressedLonger(disk, estimate, quota, k);
    }
  }

  lemma PressedLonger(disk: Disk, estimate: int, quota: int, k: nat)
    requires !Relieved(disk(k), estimate, quota)
    ensures forall j | PressedUntil(disk, estimate, quota, k + 1, j) :: PressedUntil(disk, estimate, quota, k, j)
  {
    hide Relieved;
  }

  /** Once no class is left: over the quota, the column says EMERGENCY and only CRITICAL and FATAL events are let
      in; below it, everything is, and the column says OK unless it was never set. A failed update refuses the
      event. */
  lemma SettleExactly(db: Db, incoming: Severity, estimate: int, quota: int, p: Probe)
    ensures var s := Settle(db, incoming, estimate, quota, p);
            var over := Reading(p, estimate) >= quota;
            && s.db == db.(pressure := s.db.pressure) && s.uncounted == 0
            && (s.result.Refused? <==> p.fault.StatementFails? || p.fault.CounterUnreported?)
            && (s.result.Refused? ==> s.result.cause == p.fault.cause)
            && (s.result.Exhausted? <==> over && !s.result.Refused? && incoming !in {Critical, Fatal})
            && (p.fault.StatementFails? ==> s.db == db)
            && (!p.fault.StatementFails? && over ==> s.db.pressure == Emergency)
            && (!p.fault.StatementFails? && !over ==>
                  s.db.pressure == if db.pressure == Unset then Unset else Pressure.Ok)
  {
  }

  /** The whole check. Nothing happens below the quota; a size that cannot be read at first refuses the event;
      otherwise the first relieved reading ends the pruning, with at most fifty rows gone for each reading before
      it, and if no reading is relieved and nothing fails, all prunable rows go. */
  lemma QuotaStops(db: Db, incoming: Severity, estimate: int, quota: int, disk: Disk, j: nat)
    requires 1 <= j
    ensures var s := EnforceQuota(db, incoming, estimate, quota, disk);
            && (disk(0).size.None? ==> s == Swept(db, Refused(Io), 0))
            && (disk(0).size.Some? && disk(0).size.value + estimate < quota ==> s == Swept(db, Fits, 0))
            && (disk(0).size.Some? && disk(0).size.value + estimate >= quota ==>
                  && (Relieved(disk(j), estimate, quota) ==> |db.events| - |s.db.events| <= 50 * (j - 1))
                  && (Relieved(disk(1), estimate, quota) ==> s == Swept(db, Fits, 0))
                  && (s.result.Fits? && !NonePrunable(s.db.events) ==>
                        exists x | 1 <= x ::
                          Relieved(disk(x), estimate, quota) && PressedUntil(disk, estimate, quota, 1, x))
                  && (NoFaults(disk) && (forall x | 1 <= x :: !Relieved(disk(x), estimate, quota)) ==>
                        NonePrunable(s.db.events)))
  {
    hide Sweep, Relieved;
    SweepGoesOn(db, 0, incoming, estimate, quota, disk, 1);
    if Relieved(disk(j), estimate, quota) { SweepStops(db, 0, incoming, estimate, quota, disk, 1, j); }
    if Relieved(disk(1), estimate, quota) { SweepStops(db, 0, incoming, estimate, quota, disk, 1, 1); }
  }
}
