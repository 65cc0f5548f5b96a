/** A process instance and its identity key (agent/internal/collectors/process/model.go). */
module ProcessModel {
  import opened Wrappers
  import opened Numerals

  /** startTime in nanoseconds since the epoch, unbounded, None for the zero time; info stands for the optional
      metadata. */
  datatype Instance = Instance(pid: int, startTime: Option<int>, info: string)

  predicate Identified(i: Instance) {
    i.startTime.Some?
  }

  /** UnixNano is a 64-bit count: it wraps for times before 1678 or after 2262. */
  function IdentityKey(i: Instance): string
    requires Identified(i)
  {
    Decimal(i.pid) + "-" + Decimal(Wrap64(i.startTime.value))
  }

  /** The order in which sort.Slice puts instances. */
  predicate Before(a: Instance, b: Instance)
    requires Identified(a) && Identified(b)
  {
    a.pid < b.pid || (a.pid == b.pid && a.startTime.value < b.startTime.value)
  }

  lemma SeparatorAt(a: string, b: string, x: string, y: string)
    requires |a| >= 1 && |b| >= 1
    requires forall i | 1 <= i < |a| :: IsDigit(a[i])
    requires forall i | 1 <= i < |b| :: IsDigit(b[i])
    requires a + "-" + x == b + "-" + y
    ensures a == b && x == y
  {
    var s := a + "-" + x;
    assert s[|a|] == '-' && s[|b|] == '-';
    assert forall i | 1 <= i < |a| :: s[i] != '-';
    assert forall i | 1 <= i < |b| :: s[i] != '-';
    assert a == s[..|a|] && b == s[..|b|];
    assert x == s[|a| + 1..] && y == s[|b| + 1..];
  }

  /** Two instances share a key exactly if they have one PID and start times a multiple of 2^64 nanoseconds
      apart. */
  lemma KeysEqualExactly(a: Instance, b: Instance)
    requires Identified(a) && Identified(b)
    ensures IdentityKey(a) == IdentityKey(b) <==>
              a.pid == b.pid && (b.startTime.value - a.startTime.value) % TWO_64 == 0
  {
    hide Wrap64;
    WrapsTogether(a.startTime.value, b.startTime.value);
    if IdentityKey(a) == IdentityKey(b) {
      var x, y := Wrap64(a.startTime.value), Wrap64(b.startTime.value);
      SeparatorAt(Decimal(a.pid), Decimal(b.pid), Decimal(x), Decimal(y));
      DecimalInjective(a.pid, b.pid);
      DecimalInjective(x, y);
    }
  }

  /** The start time is one that UnixNano can tell. */
  predicate InRange(i: Instance) {
    Identified(i) && InInt64(i.startTime.value)
  }

  /** Within the range of UnixNano the key tells PID and start time apart, negative values included. */
  lemma IdentityKeyInjective(a: Instance, b: Instance)
    requires InRange(a) && InRange(b)
    ensures IdentityKey(a) == IdentityKey(b) <==> a.pid == b.pid && a.startTime == b.startTime
  {
    hide IdentityKey;
    KeysEqualExactly(a, b);
  }

  /** Instances with one PID and one start time share a key, instances that share a key have one PID. */
  lemma KeyBasics(a: Instance, b: Instance)
    requires Identified(a) && Identified(b)
    ensures a.pid == b.pid && a.startTime == b.startTime ==> IdentityKey(a) == IdentityKey(b)
    ensures IdentityKey(a) == IdentityKey(b) ==> a.pid == b.pid
  {
    hide IdentityKey;
    KeysEqualExactly(a, b);
  }
}
