/** How a process's name, parent and start time are read from its stat line on Linux
    (agent/internal/collectors/process/adapter_linux.go). */
module ProcessStat {
  import opened Wrappers
  import opened Numerals
  import opened ProcessModel

  const NS := 1_000_000_000

  /** The zero time of the source, 1 January of year 1, in nanoseconds since the epoch. */
  const ZERO_TIME := -62135596800 * NS

  // ----- 64-bit arithmetic that truncates toward zero -----

  function Quotient(a: int, b: int): int
    requires b != 0
  {
    if a >= 0 then a / b else -(-a / b)
  }

  function Remainder(a: int, b: int): int
    requires b != 0
  {
    a - b * Quotient(a, b)
  }

  /** None for the zero time. */
  function StartTime(boot: int, hz: int, ticks: int): Option<int>
    requires hz != 0
  {
    var sec := Wrap64(boot + Quotient(ticks, hz));
    var nsec := Quotient(Wrap64(Remainder(ticks, hz) * NS), hz);
    var t := sec * NS + nsec;
    if t == ZERO_TIME then None else Some(t)
  }

  // ----- Text -----

  predicate IsSpace(c: char) {
    || '\U{9}' <= c <= '\U{d}' || c == ' ' || c == '\U{85}' || c == '\U{a0}' || c == '\U{1680}'
    || '\U{2000}' <= c <= '\U{200a}' || c == '\U{2028}' || c == '\U{2029}' || c == '\U{202f}' || c == '\U{205f}'
    || c == '\U{3000}'
  }

  function IndexOf(s: string, c: char): (i: int)
    ensures i == -1 ==> c !in s
    ensures i != -1 ==> 0 <= i < |s| && s[i] == c && c !in s[..i]
  {
    if s == "" then -1
    else if s[0] == c then 0
    else
      var i := IndexOf(s[1..], c);
      assert i != -1 ==> s[..i + 1] == [s[0]] + s[1..][..i];
      if i == -1 then -1 else i + 1
  }

  function LastIndexOf(s: string, c: char): (i: int)
    ensures i == -1 ==> c !in s
    ensures i != -1 ==> 0 <= i < |s| && s[i] == c && c !in s[i + 1..]
  {
    if s == "" then -1
    else
      var n := |s| - 1;
      if s[n] == c then n
      else
        var i := LastIndexOf(s[..n], c);
        assert i != -1 ==> s[i + 1..] == s[..n][i + 1..] + [s[n]];
        i
  }

  predicate NoSpace(s: string) {
    forall c | c in s :: !IsSpace(c)
  }

  function WordLength(s: string): (n: nat)
    ensures n <= |s| && NoSpace(s[..n]) && (n < |s| ==> IsSpace(s[n]))
  {
    if s == "" || IsSpace(s[0]) then 0
    else
      var n := WordLength(s[1..]);
      assert s[..n + 1] == [s[0]] + s[1..][..n];
      n + 1
  }

  /** The maximal runs without white space. */
  function Fields(s: string): seq<string>
    decreases |s|
  {
    if s == "" then []
    else if IsSpace(s[0]) then Fields(s[1..])
    else
      var n := WordLength(s);
      [s[..n]] + Fields(s[n..])
  }

  function ParseInt64(s: string): Option<int> {
    var v := Parse(s);
    if v.Some? && InInt64(v.value) then v else None
  }

  // ----- parseStat -----

  datatype Stat = Parsed(name: string, parent: Option<int>, start: Option<int>) | Refused | DividesByZero

  function ParseStat(boot: int, hz: int, line: string): Stat {
    var firstParen, lastParen := IndexOf(line, '('), LastIndexOf(line, ')');
    if firstParen == -1 || lastParen == -1 || firstParen >= lastParen then Refused
    else
      var name := line[firstParen + 1..lastParen];
      if lastParen + 2 >= |line| then Refused
      else
        var fields := Fields(line[lastParen + 2..]);
        if |fields| < 20 then Refused
        else
          var ppid, ticks := ParseInt64(fields[1]), ParseInt64(fields[19]);
          if ppid.None? || ticks.None? then Refused
          else if hz == 0 then DividesByZero
          else Parsed(name, if ppid.value != 0 then Some(ppid.value) else None, StartTime(boot, hz, ticks.value))
  }

  // ----- The line the kernel prints -----

  predicate Word(s: string) {
    s != "" && NoSpace(s)
  }

  /** Words separated by single spaces and ended by a newline. */
  function Joined(words: seq<string>): string {
    if words == [] then "\n"
    else if |words| == 1 then words[0] + "\n"
    else words[0] + " " + Joined(words[1..])
  }

  function StatLine(pid: nat, comm: string, words: seq<string>): string {
    Digits(pid) + " (" + comm + ") " + Joined(words)
  }

  lemma {:induction false} FieldsOfJoined(words: seq<string>)
    requires forall w | w in words :: Word(w)
    ensures Fields(Joined(words)) == words
  {
    if words == [] {
      assert Fields("\n") == Fields(""[..]);
    } else {
      var w := words[0];
      assert w in words && Word(w);
      var tail := if |words| == 1 then "\n" else " " + Joined(words[1..]);
      assert Joined(words) == w + tail;
      assert IsSpace(tail[0]);
      FirstField(w, tail);
      FieldsOfJoined(words[1..]);
      assert tail[1..] == if |words| == 1 then "" else Joined(words[1..]);
      assert words == [w] + words[1..];
    }
  }

  lemma FirstField(w: string, tail: string)
    requires Word(w) && tail != "" && IsSpace(tail[0])
    ensures Fields(w + tail) == [w] + Fields(tail[1..])
  {
    var s := w + tail;
    var n := WordLength(s);
    assert s[0] == w[0] && w[0] in w;
    assert forall j | 0 <= j < |w| :: w[j] in w && s[j] == w[j];
    assert forall j | 0 <= j < n :: s[..n][j] in s[..n] && s[j] == s[..n][j];
    assert s[|w|] == tail[0];
    assert n == |w|;
    assert s[..|w|] == w && s[|w|..] == tail;
  }

  lemma IndexIs(s: string, c: char, k: nat)
    requires k < |s| && s[k] == c && c !in s[..k]
    ensures IndexOf(s, c) == k
  {
    var i := IndexOf(s, c);
    assert forall j | 0 <= j < k :: s[..k][j] == s[j] != c;
    assert i != -1;
    assert forall j | 0 <= j < i :: s[..i][j] == s[j] != c;
  }

  /** Nothing after the last index is c. */
  lemma LastIndexIsLast(s: string, c: char, k: nat)
    requires k < |s| && s[k] == c
    ensures k <= LastIndexOf(s, c) < |s|
    ensures LastIndexOf(s, c) == k <==> c !in s[k + 1..]
  {
    var i := LastIndexOf(s, c);
    assert i != -1;
    assert forall j | i < j < |s| :: s[i + 1..][j - i - 1] == s[j] != c;
    assert k < i ==> s[k + 1..][i - k - 1] == c;
  }

  lemma FirstParen(pid: nat, comm: string, rest: string)
    ensures IndexOf(Digits(pid) + " (" + comm + ") " + rest, '(') == |Digits(pid)| + 1
  {
    var d, line := Digits(pid), Digits(pid) + " (" + comm + ") " + rest;
    assert line[..|d| + 1] == d + " ";
    IndexIs(line, '(', |d| + 1);
  }

  lemma LastParen(pre: string, rest: string)
    ensures LastIndexOf(pre + ")" + rest, ')') == |pre| <==> ')' !in rest
    ensures LastIndexOf(pre + ")" + rest, ')') >= |pre|
  {
    hide LastIndexOf;
    var line := pre + ")" + rest;
    assert line[|pre| + 1..] == rest;
    LastIndexIsLast(line, ')', |pre|);
  }

  /** For every name, parentheses and white space included, a line whose words contain no closing parenthesis
      gives back the name, the parent and the start time. */
  lemma StatRoundTrip(boot: int, hz: int, pid: nat, comm: string, words: seq<string>, ppid: int, ticks: int)
    requires hz != 0 && InInt64(ppid) && InInt64(ticks)
    requires |words| >= 20 && words[1] == Decimal(ppid) && words[19] == Decimal(ticks)
    requires forall w | w in words :: Word(w) && ')' !in w
    ensures ParseStat(boot, hz, StatLine(pid, comm, words))
            == Parsed(comm, if ppid != 0 then Some(ppid) else None, StartTime(boot, hz, ticks))
  {
    hide StartTime, Fields, Decimal, Digits, Parse, IndexOf, LastIndexOf, Joined, StatLine;
    NoParen(words);
    Parens(pid, comm, words);
    JoinedNonempty(words);
    FieldsOfJoined(words);
    ParseOfDecimal(ppid);
    ParseOfDecimal(ticks);
  }

  lemma Parens(pid: nat, comm: string, words: seq<string>)
    ensures var line := StatLine(pid, comm, words);
            var first, last, at := IndexOf(line, '('), LastIndexOf(line, ')'), |Digits(pid)| + 2 + |comm|;
            && 0 <= first < at <= last < |line|
            && (last == at <==> ')' !in Joined(words))
            && line[first + 1..at] == comm && at + 2 <= |line| && line[at + 2..] == Joined(words)
  {
    hide Digits, IndexOf, LastIndexOf, Joined;
    var d, rest := Digits(pid), Joined(words);
    FirstParen(pid, comm, rest);
    LastParen(d + " (" + comm, " " + rest);
    Layout(d, comm, rest);
  }

  lemma Layout(d: string, comm: string, rest: string)
    ensures var line, at := d + " (" + comm + ") " + rest, |d| + 2 + |comm|;
            && line == (d + " (" + comm) + ")" + (" " + rest)
            && |line| == at + 2 + |rest|
            && line[|d| + 2..at] == comm && line[at + 2..] == rest
    ensures ')' in rest <==> ')' in " " + rest
  {
    assert (" " + rest)[1..] == rest;
  }

  lemma {:induction false} NoParen(words: seq<string>)
    requires forall w | w in words :: ')' !in w
    ensures ')' !in Joined(words)
  {
    if words != [] {
      assert words[0] in words;
      NoParen(words[1..]);
    }
  }

  lemma JoinedNonempty(words: seq<string>)
    ensures Joined(words) != ""
  {
  }

  /** The condition on the words is exact: with a closing parenthesis behind the name, whatever is returned
      carries another name. */
  lemma NameIsExact(boot: int, hz: int, pid: nat, comm: string, words: seq<string>)
    requires ParseStat(boot, hz, StatLine(pid, comm, words)).Parsed?
    ensures ParseStat(boot, hz, StatLine(pid, comm, words)).name == comm <==> ')' !in Joined(words)
  {
    hide StartTime, Fields, Digits, Parse, IndexOf, LastIndexOf, Joined, StatLine;
    Parens(pid, comm, words);
  }

  // ----- Start times -----

  /** The part of a second below the ticks. */
  lemma SubSecond(hz: int, r: int)
    requires 0 <= r < hz <= NS
    ensures Quotient(Wrap64(r * NS), hz) == r * NS / hz
    ensures 0 <= r * NS / hz < NS
  {
    assert 0 <= r * NS < NS * NS;
    assert r * NS < hz * NS;
    DivLess(r * NS, hz, NS);
  }

  lemma MulOrder(x: int, y: int, z: int)
    requires z > 0
    ensures x < y <==> x * z < y * z
  {
  }

  lemma DivLess(a: int, b: int, c: int)
    requires b > 0 && 0 <= a < b * c
    ensures 0 <= a / b < c
  {
    assert a == a / b * b + a % b;
    MulOrder(a / b, c, b);
  }

  lemma SubSecondIncreases(hz: int, r: int, s: int)
    requires 0 <= r < s < hz <= NS
    ensures r * NS / hz < s * NS / hz
  {
    var x, y := r * NS, s * NS;
    assert y >= x + NS;
    assert x == x / hz * hz + x % hz && y == y / hz * hz + y % hz;
    MulOrder(x / hz, y / hz, hz);
  }

  lemma Divided(hz: int, t: int)
    requires 0 < hz && 0 <= t && InInt64(t)
    ensures Quotient(t, hz) == t / hz && Remainder(t, hz) == t % hz && 0 <= t % hz < hz && 0 <= t / hz
            && InInt64(t / hz)
  {
    assert t == hz * (t / hz) + t % hz;
    assert hz * (TWO_64 / 2) >= TWO_64 / 2;
    DivLess(t, hz, TWO_64 / 2);
  }

  lemma QuotientMonotone(hz: int, a: int, b: int)
    requires 0 < hz && 0 <= a < b
    ensures a / hz < b / hz || (a / hz == b / hz && a % hz < b % hz)
  {
    var x, y := a / hz, b / hz;
    assert a == x * hz + a % hz && b == y * hz + b % hz;
    assert (y + 1) * hz == y * hz + hz;
    MulOrder(x, y + 1, hz);
  }

  /** The time before the zero-time test. */
  function Instant(boot: int, hz: int, ticks: int): int
    requires hz != 0
  {
    Wrap64(boot + Quotient(ticks, hz)) * NS + Quotient(Wrap64(Remainder(ticks, hz) * NS), hz)
  }

  /** In the usual range the start time is the boot time plus the ticks, in nanoseconds rounded down. */
  lemma StartInNanoseconds(boot: int, hz: int, ticks: int)
    requires 0 < hz <= NS && 0 <= ticks && InInt64(ticks) && 0 <= boot && InInt64(boot + ticks / hz)
    ensures StartTime(boot, hz, ticks) == Some(boot * NS + ticks * NS / hz)
  {
    hide Quotient, Remainder, Wrap64;
    Divided(hz, ticks);
    SubSecond(hz, ticks % hz);
    Fits(boot + ticks / hz);
    SplitTicks(hz, ticks);
  }

  lemma SplitTicks(hz: int, t: int)
    requires 0 < hz && 0 <= t
    ensures t * NS / hz == t / hz * NS + t % hz * NS / hz
  {
    var q, r := t / hz, t % hz;
    assert t * NS == q * NS * hz + r * NS by {
      assert t == q * hz + r;
    }
    SkipMultiple(q * NS, r * NS, hz);
  }

  lemma SkipMultiple(a: int, b: int, d: int)
    requires d > 0
    ensures (a * d + b) / d == a + b / d
  {
    assert b == b / d * d + b % d;
    assert a * d + b == (a + b / d) * d + b % d;
    DivUnique(a * d + b, d, a + b / d, b % d);
  }

  lemma DivUnique(x: int, d: int, q: int, r: int)
    requires d > 0 && x == q * d + r && 0 <= r < d
    ensures x / d == q
  {
    assert x == x / d * d + x % d;
    MulOrder(x / d, q + 1, d);
    MulOrder(q, x / d + 1, d);
  }

  /** Later ticks mean a strictly later start exactly unless the seconds leave the 64-bit range in between. */
  lemma StartIncreasesExactly(boot: int, hz: int, a: int, b: int)
    requires 0 < hz <= NS && 0 <= a < b && InInt64(b) && InInt64(boot)
    ensures Instant(boot, hz, a) < Instant(boot, hz, b) <==> !(InInt64(boot + a / hz) && !InInt64(boot + b / hz))
  {
    hide Quotient, Remainder, Wrap64;
    Divided(hz, a);
    Divided(hz, b);
    SubSecond(hz, a % hz);
    SubSecond(hz, b % hz);
    QuotientMonotone(hz, a, b);
    WrapOnce(boot + a / hz);
    WrapOnce(boot + b / hz);
    if a / hz == b / hz {
      SubSecondIncreases(hz, a % hz, b % hz);
    }
  }

  lemma WrapOnce(x: int)
    requires -TWO_64 / 2 <= x < TWO_64
    ensures Wrap64(x) == if InInt64(x) then x else x - TWO_64
  {
  }

  /** Distinct ticks give distinct instants even where the seconds wrap. */
  lemma StartsDiffer(boot: int, hz: int, a: int, b: int)
    requires 0 < hz <= NS && 0 <= a < b && InInt64(b)
    ensures Instant(boot, hz, a) != Instant(boot, hz, b)
  {
    hide Quotient, Remainder, Wrap64;
    Divided(hz, a);
    Divided(hz, b);
    SubSecond(hz, a % hz);
    SubSecond(hz, b % hz);
    QuotientMonotone(hz, a, b);
    if a / hz == b / hz {
      SubSecondIncreases(hz, a % hz, b % hz);
    } else {
      WrapApart(boot + a / hz, boot + b / hz);
    }
  }

  /** Start times tell all tick counts apart exactly if a tick is at least a nanosecond. */
  lemma TicksAreToldApart(boot: int, hz: int)
    requires 0 < hz && InInt64(hz)
    ensures hz <= NS <==> forall a, b | 0 <= a < b && InInt64(b) :: Instant(boot, hz, a) != Instant(boot, hz, b)
  {
    hide Instant;
    if hz <= NS {
      forall a, b | 0 <= a < b && InInt64(b) ensures Instant(boot, hz, a) != Instant(boot, hz, b) {
        StartsDiffer(boot, hz, a, b);
      }
    } else {
      FirstTicksCollide(boot, hz);
    }
  }

  lemma FirstTicksCollide(boot: int, hz: int)
    requires hz > NS && InInt64(hz)
    ensures Instant(boot, hz, 0) == Instant(boot, hz, 1)
  {
    hide Quotient, Remainder, Wrap64;
    BelowDivisor(hz, 0);
    BelowDivisor(hz, 1);
    BelowDivisor(hz, NS);
    Fits(0);
    Fits(NS);
  }

  lemma BelowDivisor(hz: int, t: int)
    requires 0 <= t < hz
    ensures Quotient(t, hz) == 0 && Remainder(t, hz) == t
  {
    assert t / hz == 0;
  }

  /** PID reuse: two stat lines for one PID with different start ticks have different start times, whatever the
      names, and share an identity key exactly if those lie a multiple of 2^64 nanoseconds apart. Start times
      less than 2^64 nanoseconds apart, some 584 years, never do. */
  lemma ReusedPidSharesKeyExactly(boot: int, hz: int, a: int, b: int, i: Instance, j: Instance)
    requires 0 < hz <= NS && 0 <= a < b && InInt64(b)
    requires i.pid == j.pid && i.startTime == StartTime(boot, hz, a) && j.startTime == StartTime(boot, hz, b)
    ensures var x, y := Instant(boot, hz, a), Instant(boot, hz, b);
            && i.startTime != j.startTime
            && (Identified(i) && Identified(j) ==>
                  && (IdentityKey(i) == IdentityKey(j) <==> (y - x) % TWO_64 == 0)
                  && (-TWO_64 < y - x < TWO_64 ==> IdentityKey(i) != IdentityKey(j)))
  {
    hide IdentityKey, Quotient, Remainder, Wrap64;
    StartsDiffer(boot, hz, a, b);
    if Identified(i) && Identified(j) {
      KeysEqualExactly(i, j);
      NearbyDiffer(Instant(boot, hz, a), Instant(boot, hz, b));
    }
  }

  lemma NearbyDiffer(x: int, y: int)
    ensures x != y && -TWO_64 < y - x < TWO_64 ==> (y - x) % TWO_64 != 0
  {
  }

  /** Without wrapping, later processes of one PID never share a key with earlier ones. */
  lemma ReusedPidChangesKey(boot: int, hz: int, a: int, b: int, i: Instance, j: Instance)
    requires 0 < hz <= NS && 0 <= a < b && InInt64(b)
    requires i.pid == j.pid && i.startTime == StartTime(boot, hz, a) && j.startTime == StartTime(boot, hz, b)
    requires InRange(i) && InRange(j)
    ensures IdentityKey(i) != IdentityKey(j)
  {
    hide IdentityKey, Quotient, Remainder, Wrap64;
    ReusedPidSharesKeyExactly(boot, hz, a, b, i, j);
  }

  const REUSED_TICKS := 0x80_0000_0000_0000

  lemma OneTickASecond(t: int)
    requires 0 <= t && InInt64(t)
    ensures StartTime(0, 1, t) == Some(t * NS)
  {
    hide Quotient, Remainder, Wrap64;
    Divided(1, t);
    assert t / 1 == t && t % 1 == 0;
    SubSecond(1, 0);
    Fits(t);
  }

  /** At one tick a second, ticks 0 and 2^55 share a key: 2^55 * 10^9 is 2^64 * 5^9. */
  lemma ReusedPidCanShareKey(pid: int, info: string)
    ensures var i, j := Instance(pid, StartTime(0, 1, 0), info), Instance(pid, StartTime(0, 1, REUSED_TICKS), info);
            && Identified(i) && Identified(j) && i.startTime != j.startTime
            && IdentityKey(i) == IdentityKey(j)
  {
    hide IdentityKey, StartTime;
    var i, j := Instance(pid, StartTime(0, 1, 0), info), Instance(pid, StartTime(0, 1, REUSED_TICKS), info);
    OneTickASecond(0);
    OneTickASecond(REUSED_TICKS);
    assert REUSED_TICKS * NS == TWO_64 * 1953125;
    KeysEqualExactly(i, j);
  }
}
