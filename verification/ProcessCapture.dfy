/** One pass over the process directory on Linux (agent/internal/collectors/process/adapter_linux.go). */
module ProcessCapture {
  import opened Wrappers
  import opened Numerals
  import opened ProcessModel
  import opened ProcessStat
  import opened LifecycleProperties

  /** stat is None when the file cannot be read. */
  datatype Entry = Entry(name: string, isDir: bool, stat: Option<string>)

  /** The PID of a numeric directory. */
  function PidOf(e: Entry): Option<int> {
    if e.isDir then ParseInt64(e.name) else None
  }

  /** A process whose stat line is gone or malformed is listed with its PID alone. */
  function InstanceOf(boot: int, hz: int, pid: int, stat: Option<string>): (i: Instance)
    ensures i.pid == pid
  {
    if stat.None? then Instance(pid, None, "")
    else
      match ParseStat(boot, hz, stat.value)
      case Parsed(name, _, start) => Instance(pid, start, name)
      case _ => Instance(pid, None, "")
  }

  function Captured(boot: int, hz: int, entries: seq<Entry>): seq<Instance> {
    if entries == [] then []
    else
      var n := |entries| - 1;
      var pid := PidOf(entries[n]);
      Captured(boot, hz, entries[..n]) + if pid.None? then [] else [InstanceOf(boot, hz, pid.value, entries[n].stat)]
  }

  /** hz is the clock rate the system reports; a rate of 0 makes the source fail with a division by zero. */
  method CaptureSnapshot(boot: int, hz: int, entries: seq<Entry>) returns (instances: seq<Instance>)
    requires hz != 0
    ensures instances == Captured(boot, hz, entries)
  {
    hide ParseStat, ParseInt64;
    instances := [];
    var i := 0;
    while i < |entries|
      invariant 0 <= i <= |entries|
      invariant instances == Captured(boot, hz, entries[..i])
    {
      assert entries[..i + 1][..i] == entries[..i];
      var e := entries[i];
      i := i + 1;
      if !e.isDir {
        continue;
      }
      var pid := ParseInt64(e.name);
      if pid.None? {
        continue;
      }
      var inst: Option<Instance> := None;
      if e.stat.Some? {
        var parsed := ParseStat(boot, hz, e.stat.value);
        if parsed.Parsed? {
          inst := Some(Instance(pid.value, parsed.start, parsed.name));
        }
      }
      if inst.Some? {
        instances := instances + [inst.value];
      } else {
        instances := instances + [Instance(pid.value, None, "")];
      }
    }
    assert entries[..|entries|] == entries;
  }

  /** Directory names are distinct and numbers are written in the usual way. */
  ghost predicate Directory(entries: seq<Entry>) {
    && (forall i, j | 0 <= i < j < |entries| :: entries[i].name != entries[j].name)
    && (forall e | e in entries && PidOf(e).Some? :: e.name == Decimal(PidOf(e).value))
  }

  lemma {:induction false} CapturedPids(boot: int, hz: int, entries: seq<Entry>, k: nat) returns (i: nat)
    requires k < |Captured(boot, hz, entries)|
    ensures i < |entries| && PidOf(entries[i]) == Some(Captured(boot, hz, entries)[k].pid)
  {
    hide PidOf, InstanceOf;
    var n := |entries| - 1;
    if k < |Captured(boot, hz, entries[..n])| {
      i := CapturedPids(boot, hz, entries[..n], k);
    } else {
      i := n;
    }
  }

  /** Exactly the numeric directories are listed, one after the other. */
  lemma {:induction false} CapturedExactly(boot: int, hz: int, entries: seq<Entry>, i: Instance)
    ensures i in Captured(boot, hz, entries) <==>
              exists e :: e in entries && e.isDir && ParseInt64(e.name) == Some(i.pid)
                          && i == InstanceOf(boot, hz, i.pid, e.stat)
  {
    hide InstanceOf, ParseInt64;
    if entries != [] {
      var n := |entries| - 1;
      CapturedExactly(boot, hz, entries[..n], i);
      assert entries == entries[..n] + [entries[n]];
    }
  }

  /** A process whose stat line the kernel wrote is listed under its directory's PID with the name on the line,
      whatever characters it has, and the start time its ticks say, in nanoseconds since the epoch. */
  lemma CapturedAsItsLine(boot: int, hz: int, entries: seq<Entry>, e: Entry, pid: nat, comm: string,
                          words: seq<string>, ppid: int, ticks: nat)
    requires e in entries && e.isDir && e.name == Decimal(pid) && e.stat == Some(StatLine(pid, comm, words))
    requires InInt64(pid) && InInt64(ppid) && InInt64(ticks)
    requires |words| >= 20 && words[1] == Decimal(ppid) && words[19] == Decimal(ticks)
    requires forall w | w in words :: Word(w) && ')' !in w
    requires 0 < hz <= NS && 0 <= boot && InInt64(boot + ticks / hz)
    ensures Instance(pid, Some(boot * NS + ticks * NS / hz), comm) in Captured(boot, hz, entries)
  {
    hide Captured, Decimal, StatLine, ParseStat, StartTime;
    StatRoundTrip(boot, hz, pid, comm, words, ppid, ticks);
    StartInNanoseconds(boot, hz, ticks);
    ParseOfDecimal(pid);
    CapturedExactly(boot, hz, entries, Instance(pid, Some(boot * NS + ticks * NS / hz), comm));
  }

  /** A process whose stat file cannot be read, or is refused, is listed with its PID alone, so that the
      reconciliation knows it is there without knowing which one it is. */
  lemma UnreadableIsUnidentified(boot: int, hz: int, entries: seq<Entry>, e: Entry, pid: int)
    requires e in entries && e.isDir && ParseInt64(e.name) == Some(pid)
    requires e.stat.Some? ==> !ParseStat(boot, hz, e.stat.value).Parsed?
    ensures Instance(pid, None, "") in Captured(boot, hz, entries)
  {
    hide Captured, ParseStat, ParseInt64;
    CapturedExactly(boot, hz, entries, Instance(pid, None, ""));
  }

  /** A capture lists each PID at most once. */
  lemma {:induction false} CaptureIsPidUnique(boot: int, hz: int, entries: seq<Entry>)
    requires Directory(entries)
    ensures PidUnique(Captured(boot, hz, entries))
  {
    hide PidOf, InstanceOf, Decimal;
    if entries != [] {
      var n := |entries| - 1;
      var front, all := Captured(boot, hz, entries[..n]), Captured(boot, hz, entries);
      assert forall e | e in entries[..n] :: e in entries;
      CaptureIsPidUnique(boot, hz, entries[..n]);
      if |front| < |all| {
        forall k | 0 <= k < |front| ensures front[k].pid != all[|front|].pid {
          var i := CapturedPids(boot, hz, entries[..n], k);
          assert entries[i] in entries && entries[n] in entries;
        }
      }
    }
  }

  /** Polling keeps at most one live instance per PID, reuse or not. */
  lemma PollingKeepsOnePerPid(boot: int, hz: int, passes: seq<seq<Entry>>)
    requires forall p | p in passes :: Directory(p)
    ensures OnePerPid(ReconcileAll(seq(|passes|, i requires 0 <= i < |passes| => Captured(boot, hz, passes[i]))).state)
  {
    hide ReconcileAll, Captured, Directory, PidUnique;
    var snaps := seq(|passes|, i requires 0 <= i < |passes| => Captured(boot, hz, passes[i]));
    forall s | s in snaps ensures PidUnique(s) {
      var i: nat :| i < |snaps| && snaps[i] == s;
      assert passes[i] in passes;
      CaptureIsPidUnique(boot, hz, passes[i]);
    }
    OneLiveInstancePerPid(snaps);
  }
}
