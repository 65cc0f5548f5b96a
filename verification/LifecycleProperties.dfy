/** What every run of the lifecycle engine keeps: exact reconciliation, an emission order that depends on
    nothing but the sets observed, and a balanced, alternating ledger per process identity. */
module LifecycleProperties {
  import opened Wrappers
  import opened ProcessModel
  import opened Lifecycle

  /** The identities an emission list names, in order, with their actions. */
  function Identities(es: seq<Emit>): seq<(int, Option<int>, Action)> {
    seq(|es|, i requires 0 <= i < |es| => (es[i].inst.pid, es[i].inst.startTime, es[i].action))
  }

  // ----- Reconcile is exact -----

  /** After a baseline, reconciling leaves exactly the observed identities and those known ones whose PID
      could not be observed; it emits an exit for each known identity that went and a start for each new
      one, exits first, each part in strictly ascending order of PID and start time. */
  lemma ReconcileIsExact(e: Engine, snap: seq<Instance>)
    requires Keyed(e.state) && e.initialized
    ensures var (e', out) := Reconcile(e, snap);
            var kept := set k | k in e.state && e.state[k].pid in Unobservable(snap);
            && Keyed(e'.state) && e'.initialized
            && e'.state.Keys == Observed(snap) + kept
            && (forall k | k in e.state && k in e'.state :: e'.state[k] == e.state[k])
            && exists exits, starts ::
                 && out == Emits(exits, ProcessExit) + Emits(starts, ProcessStart)
                 && IsListing(e.state, e.state.Keys - Observed(snap) - kept, exits)
                 && IsListing(e'.state, Observed(snap) - e.state.Keys, starts)
  {
    hide Keyed, Observed, Unobservable, Reconcile, IsListing;
    var exits, starts := ReconcileParts(e, snap);
  }

  /** The first snapshot is the baseline: it adds what it observes and removes nothing, not even what events told
      before and it does not show, and it emits nothing. */
  lemma BaselineIsExact(e: Engine, snap: seq<Instance>)
    requires Keyed(e.state) && !e.initialized
    ensures var (e', out) := Reconcile(e, snap);
            && Keyed(e'.state) && e'.initialized && out == []
            && e'.state.Keys == e.state.Keys + Observed(snap)
            && (forall k | k in e.state :: e'.state[k] == e.state[k])
            && (forall k | k in e'.state && k !in e.state :: e'.state[k] in snap)
  {
    hide IdentityKey, Observed;
    ScanSpec(e.state, snap, |snap|);
    assert snap[..|snap|] == snap;
  }

  /** A start makes its own identity known and an exit makes it unknown, and both leave every other alone. A start of
      a known identity keeps what was known of it and is silent, as is every start before the baseline; an exit
      names what was known, and one of an unknown identity is silent. */
  lemma HandleEventIsExact(e: Engine, inst: Instance, isStart: bool)
    ensures var (e', out) := HandleEvent(e, inst, isStart);
            && e'.initialized == e.initialized
            && (!Identified(inst) ==> e' == e && out == [])
            && (Identified(inst) ==>
                  var k := IdentityKey(inst);
                  && (forall x | x != k :: (x in e'.state <==> x in e.state)
                                           && (x in e.state ==> e'.state[x] == e.state[x]))
                  && (k in e'.state <==> isStart)
                  && (isStart ==> e'.state[k] == if k in e.state then e.state[k] else inst)
                  && out == if isStart && k !in e.state && e.initialized then [Emit(inst, ProcessStart)]
                            else if !isStart && k in e.state then [Emit(e.state[k], ProcessExit)]
                            else [])
  {
    hide IdentityKey;
  }

  /** An exit undoes the start of its identity, and the two emits name one instance. */
  lemma ExitUndoesStart(e: Engine, inst: Instance, exit: Instance)
    requires e.initialized && Identified(inst) && Identified(exit) && IdentityKey(exit) == IdentityKey(inst)
    requires IdentityKey(inst) !in e.state
    ensures var (e1, started) := HandleEvent(e, inst, true);
            var (e2, exited) := HandleEvent(e1, exit, false);
            e2 == e && started == [Emit(inst, ProcessStart)] && exited == [Emit(inst, ProcessExit)]
  {
    hide IdentityKey;
    var e1 := HandleEvent(e, inst, true).0;
    assert HandleEvent(e1, exit, false).0.state == e.state;
  }

  lemma ReconcileParts(e: Engine, snap: seq<Instance>) returns (exits: seq<Instance>, starts: seq<Instance>)
    requires Keyed(e.state) && e.initialized
    ensures var (e', out) := Reconcile(e, snap);
            var kept := set k | k in e.state && e.state[k].pid in Unobservable(snap);
            && Keyed(e'.state) && e'.initialized
            && e'.state.Keys == Observed(snap) + kept
            && (forall k | k in e.state && k in e'.state :: e'.state[k] == e.state[k])
            && out == Emits(exits, ProcessExit) + Emits(starts, ProcessStart)
            && IsListing(e.state, e.state.Keys - Observed(snap) - kept, exits)
            && IsListing(e'.state, Observed(snap) - e.state.Keys, starts)
  {
    hide IdentityKey, Observed, Unobservable, Listing, Emits, Scan;
    ScanSpec(e.state, snap, |snap|);
    assert snap[..|snap|] == snap;
    var m := Scan(e.state, snap, |snap|);
    var gone := Gone(m, snap);
    var kept := set k | k in e.state && e.state[k].pid in Unobservable(snap);
    exits, starts := Listing(m, gone), Listing(m, m.Keys - e.state.Keys);
    assert gone == e.state.Keys - Observed(snap) - kept;
    assert m.Keys - e.state.Keys == Observed(snap) - e.state.Keys;
  }

  // ----- Order independence -----

  predicate SameIds(s: seq<Instance>, t: seq<Instance>) {
    |s| == |t| && forall i | 0 <= i < |s| :: s[i].pid == t[i].pid && s[i].startTime == t[i].startTime
  }

  ghost predicate AgreeOn(m: map<string, Instance>, m': map<string, Instance>, ks: set<string>)
    requires ks <= m.Keys && ks <= m'.Keys
  {
    forall k | k in ks :: m[k].pid == m'[k].pid && m[k].startTime == m'[k].startTime
  }

  lemma {:induction false} SameListing(m: map<string, Instance>, m': map<string, Instance>, ks: set<string>)
    requires Keyed(m) && Keyed(m') && ks <= m.Keys && ks <= m'.Keys && AgreeOn(m, m', ks)
    ensures SameIds(Listing(m, ks), Listing(m', ks))
    decreases ks
  {
    hide IdentityKey, IsFirst, IsListing, SameIds, Listing;
    ListingUnfolds(m, ks);
    ListingUnfolds(m', ks);
    if ks == {} {
      SameIdsCons([], []);
    } else {
      var k := First(m, ks);
      SameFirst(m, m', ks);
      assert k in ks by { FirstIsIn(m, ks); }
      SameListing(m, m', ks - {k});
      SameIdsCons(Listing(m, ks), Listing(m', ks));
    }
  }

  lemma FirstIsIn(m: map<string, Instance>, ks: set<string>)
    requires Keyed(m) && ks <= m.Keys && ks != {}
    ensures First(m, ks) in ks
  {
  }

  lemma ListingUnfolds(m: map<string, Instance>, ks: set<string>)
    requires Keyed(m) && ks <= m.Keys
    ensures ks == {} ==> Listing(m, ks) == []
    ensures ks != {} ==> First(m, ks) in m && Listing(m, ks) == [m[First(m, ks)]] + Listing(m, ks - {First(m, ks)})
  {
    hide IdentityKey, IsListing;
  }

  lemma SameIdsCons(s: seq<Instance>, t: seq<Instance>)
    ensures s == [] && t == [] ==> SameIds(s, t)
    ensures s != [] && t != [] && s[0].pid == t[0].pid && s[0].startTime == t[0].startTime ==>
              SameIds(s[1..], t[1..]) ==> SameIds(s, t)
  {
    if s != [] && t != [] && SameIds(s[1..], t[1..]) {
      assert forall i | 1 <= i < |s| :: s[1..][i - 1] == s[i] && t[1..][i - 1] == t[i];
    }
  }

  lemma SameFirst(m: map<string, Instance>, m': map<string, Instance>, ks: set<string>)
    requires Keyed(m) && Keyed(m') && ks <= m.Keys && ks <= m'.Keys && ks != {} && AgreeOn(m, m', ks)
    ensures First(m, ks) == First(m', ks)
  {
    hide IdentityKey;
    var a, b := First(m, ks), First(m', ks);
  }

  /** Instances of the snapshot that share a key not yet known have one start time. Start times in the range of
      UnixNano always do. */
  ghost predicate Unambiguous(e: Engine, snap: seq<Instance>) {
    forall x, y | x in snap && y in snap && SameNewKey(e, x, y) :: x.startTime == y.startTime
  }

  predicate SameNewKey(e: Engine, x: Instance, y: Instance) {
    Identified(x) && Identified(y) && IdentityKey(x) == IdentityKey(y) && IdentityKey(x) !in e.state
  }

  lemma InRangeIsUnambiguous(e: Engine, snap: seq<Instance>)
    requires forall x | x in snap && Identified(x) :: InRange(x)
    ensures Unambiguous(e, snap)
  {
    hide IdentityKey;
    forall x, y | x in snap && y in snap && SameNewKey(e, x, y) ensures x.startTime == y.startTime {
      IdentityKeyInjective(x, y);
    }
  }

  /** Two snapshots that show the same identities and the same unobservable PIDs, in whatever order and
      however often, lead to the same known identities, and, when their instances are unambiguous, to the same
      emitted identity sequence. */
  lemma SnapshotOrderIsIrrelevant(e: Engine, a: seq<Instance>, b: seq<Instance>)
    requires Keyed(e.state)
    requires Observed(a) == Observed(b) && Unobservable(a) == Unobservable(b)
    ensures var (ea, outA) := Reconcile(e, a);
            var (eb, outB) := Reconcile(e, b);
            && ea.state.Keys == eb.state.Keys && ea.initialized == eb.initialized
            && (Unambiguous(e, a + b) ==> Identities(outA) == Identities(outB))
  {
    hide IdentityKey, Observed, Unobservable, Listing, Unambiguous;
    ScanSpec(e.state, a, |a|);
    ScanSpec(e.state, b, |b|);
    assert a[..|a|] == a && b[..|b|] == b;
    var ma, mb := Scan(e.state, a, |a|), Scan(e.state, b, |b|);
    SameGone(ma, mb, a, b);
    if e.initialized && Unambiguous(e, a + b) {
      var gone, added := Gone(ma, a), ma.Keys - e.state.Keys;
      assert AgreeOn(ma, mb, gone);
      NewOnesAgree(e, a, b, ma, mb);
      SameListing(ma, mb, gone);
      SameListing(ma, mb, added);
      SameIdentities(Listing(ma, gone), Listing(mb, gone), Listing(ma, added), Listing(mb, added));
    }
  }

  lemma NewOnesAgree(e: Engine, a: seq<Instance>, b: seq<Instance>, ma: map<string, Instance>,
                     mb: map<string, Instance>)
    requires Keyed(ma) && Keyed(mb) && ma.Keys == mb.Keys && Unambiguous(e, a + b)
    requires forall k | k in ma && k !in e.state :: ma[k] in a && mb[k] in b
    ensures AgreeOn(ma, mb, ma.Keys - e.state.Keys)
  {
    hide IdentityKey;
    forall k | k in ma && k !in e.state ensures ma[k].pid == mb[k].pid && ma[k].startTime == mb[k].startTime {
      KeyBasics(ma[k], mb[k]);
      assert ma[k] in a + b && mb[k] in a + b && SameNewKey(e, ma[k], mb[k]);
    }
  }

  lemma SameGone(ma: map<string, Instance>, mb: map<string, Instance>, a: seq<Instance>, b: seq<Instance>)
    requires Keyed(ma) && Keyed(mb) && ma.Keys == mb.Keys
    requires Observed(a) == Observed(b) && Unobservable(a) == Unobservable(b)
    ensures Gone(ma, a) == Gone(mb, b)
  {
    hide IdentityKey, Observed, Unobservable;
    forall k | k in ma ensures ma[k].pid == mb[k].pid { KeyBasics(ma[k], mb[k]); }
  }

  lemma SameIdentities(xa: seq<Instance>, xb: seq<Instance>, sa: seq<Instance>, sb: seq<Instance>)
    requires SameIds(xa, xb) && SameIds(sa, sb)
    ensures Identities(Emits(xa, ProcessExit) + Emits(sa, ProcessStart))
            == Identities(Emits(xb, ProcessExit) + Emits(sb, ProcessStart))
  {
  }

  /** The order of the snapshot is never seen in the known identities, and it is never seen in what is emitted
      exactly if the snapshot is unambiguous. */
  lemma PermutationsAgreeExactly(e: Engine, a: seq<Instance>)
    requires Keyed(e.state)
    ensures forall b | multiset(a) == multiset(b) :: Reconcile(e, a).0.state.Keys == Reconcile(e, b).0.state.Keys
    ensures e.initialized ==>
              ((forall b | multiset(a) == multiset(b) :: Identities(Reconcile(e, a).1) == Identities(Reconcile(e, b).1))
               <==> Unambiguous(e, a))
  {
    hide Reconcile, Unambiguous, SameNewKey;
    forall b | multiset(a) == multiset(b)
      ensures Reconcile(e, a).0.state.Keys == Reconcile(e, b).0.state.Keys
      ensures Unambiguous(e, a) ==> Identities(Reconcile(e, a).1) == Identities(Reconcile(e, b).1)
    {
      PermutedShowsSame(e, a, b);
      SnapshotOrderIsIrrelevant(e, a, b);
    }
    if e.initialized && !Unambiguous(e, a) {
      var x, y := Ambiguity(e, a);
      var b := BringForward(a, x);
      var c := BringForward(a, y);
      OneStartUnderKey(e, b, x, y);
      FrontIsEmitted(e, c, y);
      assert Identities(Reconcile(e, b).1) != Identities(Reconcile(e, c).1);
    }
  }

  /** In particular, permuting a snapshot whose start times UnixNano can tell changes nothing. */
  lemma PermutedSnapshotsAgree(e: Engine, a: seq<Instance>, b: seq<Instance>)
    requires Keyed(e.state) && multiset(a) == multiset(b)
    requires forall x | x in a && Identified(x) :: InRange(x)
    ensures Reconcile(e, a).0.state.Keys == Reconcile(e, b).0.state.Keys
    ensures Identities(Reconcile(e, a).1) == Identities(Reconcile(e, b).1)
  {
    hide Reconcile, Unambiguous;
    InRangeIsUnambiguous(e, a);
    PermutedShowsSame(e, a, b);
    SnapshotOrderIsIrrelevant(e, a, b);
  }

  lemma Ambiguity(e: Engine, a: seq<Instance>) returns (x: Instance, y: Instance)
    requires !Unambiguous(e, a)
    ensures x in a && y in a && SameNewKey(e, x, y) && x.startTime != y.startTime
  {
    x, y :| x in a && y in a && SameNewKey(e, x, y) && x.startTime != y.startTime;
  }

  lemma PermutedShowsSame(e: Engine, a: seq<Instance>, b: seq<Instance>)
    requires multiset(a) == multiset(b)
    ensures Observed(a) == Observed(b) && Unobservable(a) == Unobservable(b)
    ensures Unambiguous(e, a) ==> Unambiguous(e, a + b)
  {
    hide IdentityKey, SameNewKey;
    assert forall i :: i in a <==> i in multiset(a);
    assert forall i :: i in b <==> i in multiset(b);
    assert forall i :: i in a + b <==> i in a;
  }

  lemma BringForward(a: seq<Instance>, x: Instance) returns (b: seq<Instance>)
    requires x in a
    ensures multiset(a) == multiset(b) && b != [] && b[0] == x
  {
    var i :| 0 <= i < |a| && a[i] == x;
    b := [x] + a[..i] + a[i + 1..];
    assert a == a[..i] + [x] + a[i + 1..];
  }

  lemma {:induction false} FirstWins(m: map<string, Instance>, snap: seq<Instance>, n: nat)
    requires 0 < n <= |snap| && Identified(snap[0]) && IdentityKey(snap[0]) !in m
    ensures IdentityKey(snap[0]) in Scan(m, snap, n) && Scan(m, snap, n)[IdentityKey(snap[0])] == snap[0]
  {
    hide IdentityKey;
    if n > 1 {
      FirstWins(m, snap, n - 1);
    } else {
      assert Scan(m, snap, 0) == m;
    }
  }

  function StartOf(x: Instance): (int, Option<int>, Action) {
    (x.pid, x.startTime, ProcessStart)
  }

  /** The first of a snapshot, under a new key, is emitted. */
  lemma FrontIsEmitted(e: Engine, snap: seq<Instance>, x: Instance)
    requires Keyed(e.state) && e.initialized && snap != [] && snap[0] == x && Identified(x)
            && IdentityKey(x) !in e.state
    ensures StartOf(x) in Identities(Reconcile(e, snap).1)
  {
    hide IdentityKey, Observed, Unobservable, Listing, Scan;
    ScanSpec(e.state, snap, |snap|);
    FirstWins(e.state, snap, |snap|);
    var m := Scan(e.state, snap, |snap|);
    var exits, starts := Listing(m, Gone(m, snap)), Listing(m, m.Keys - e.state.Keys);
    assert m[IdentityKey(x)] in starts;
    StartIsThere(exits, starts, x);
  }

  lemma StartIsThere(exits: seq<Instance>, starts: seq<Instance>, x: Instance)
    requires x in starts
    ensures StartOf(x) in Identities(Emits(exits, ProcessExit) + Emits(starts, ProcessStart))
  {
    var i :| 0 <= i < |starts| && starts[i] == x;
    var out := Emits(exits, ProcessExit) + Emits(starts, ProcessStart);
    assert Identities(out)[|exits| + i] == StartOf(x);
  }

  /** When the front of the snapshot takes a new key, no other start time under that key is emitted. */
  lemma OneStartUnderKey(e: Engine, snap: seq<Instance>, x: Instance, y: Instance)
    requires Keyed(e.state) && e.initialized && snap != [] && snap[0] == x
    requires SameNewKey(e, x, y) && x.startTime != y.startTime
    ensures StartOf(y) !in Identities(Reconcile(e, snap).1)
  {
    hide IdentityKey, Observed, Unobservable, Listing, Scan;
    ScanSpec(e.state, snap, |snap|);
    FirstWins(e.state, snap, |snap|);
    var m := Scan(e.state, snap, |snap|);
    var exits, starts := Listing(m, Gone(m, snap)), Listing(m, m.Keys - e.state.Keys);
    forall z | z in starts ensures z.pid != y.pid || z.startTime != y.startTime {
      KeyBasics(z, y);
    }
    StartIsNotThere(exits, starts, y);
  }

  lemma StartIsNotThere(exits: seq<Instance>, starts: seq<Instance>, y: Instance)
    requires forall z | z in starts :: z.pid != y.pid || z.startTime != y.startTime
    ensures StartOf(y) !in Identities(Emits(exits, ProcessExit) + Emits(starts, ProcessStart))
  {
    var out := Emits(exits, ProcessExit) + Emits(starts, ProcessStart);
    forall i | 0 <= i < |out| ensures Identities(out)[i] != StartOf(y) {
      if i >= |exits| { assert starts[i - |exits|] in starts; }
    }
  }

  // ----- The ledger -----

  datatype Op = OpReconcile(snap: seq<Instance>) | OpHandle(inst: Instance, isStart: bool)

  ghost function Apply(e: Engine, op: Op): (Engine, seq<Emit>)
    requires Keyed(e.state)
  {
    match op
    case OpReconcile(snap) => Reconcile(e, snap)
    case OpHandle(inst, isStart) => HandleEvent(e, inst, isStart)
  }

  /** The actions logged for one identity, in order. */
  function Actions(out: seq<Emit>, k: string): seq<Action> {
    if out == [] then []
    else
      var last := out[|out| - 1];
      Actions(out[..|out| - 1], k)
      + if Identified(last.inst) && IdentityKey(last.inst) == k then [last.action] else []
  }

  function Num(acts: seq<Action>, a: Action): nat {
    if acts == [] then 0
    else Num(acts[..|acts| - 1], a) + if acts[|acts| - 1] == a then 1 else 0
  }

  /** Starting with the identity known or not, the actions take turns, and end with it known or not. */
  predicate Alternating(known: bool, acts: seq<Action>, known': bool) {
    if acts == [] then known == known'
    else (acts[|acts| - 1] == ProcessStart) == known' && Alternating(known, acts[..|acts| - 1], !known')
  }

  lemma {:induction false} ActionsConcat(a: seq<Emit>, b: seq<Emit>, k: string)
    ensures Actions(a + b, k) == Actions(a, k) + Actions(b, k)
  {
    hide IdentityKey;
    if b == [] {
      assert a + b == a;
    } else {
      var n := |b| - 1;
      ActionsConcat(a, b[..n], k);
      assert (a + b)[..|a + b| - 1] == a + b[..n];
      assert (a + b)[|a + b| - 1] == b[n];
    }
  }

  lemma {:induction false} NumConcat(a: seq<Action>, b: seq<Action>, x: Action)
    ensures Num(a + b, x) == Num(a, x) + Num(b, x)
  {
    if b == [] {
      assert a + b == a;
    } else {
      var n := |b| - 1;
      NumConcat(a, b[..n], x);
      assert (a + b)[..|a + b| - 1] == a + b[..n];
    }
  }

  lemma {:induction false} AlternatingConcat(p: bool, a: seq<Action>, q: bool, b: seq<Action>, r: bool)
    requires Alternating(p, a, q) && Alternating(q, b, r)
    ensures Alternating(p, a + b, r)
    decreases |b|
  {
    if b == [] {
      assert a + b == a;
    } else {
      var n := |b| - 1;
      AlternatingConcat(p, a, q, b[..n], !r);
      assert (a + b)[..|a + b| - 1] == a + b[..n];
    }
  }

  lemma {:induction false} ActionsOfListing(m: map<string, Instance>, ks: set<string>, s: seq<Instance>, k: string,
                                            a: Action)
    requires Keyed(m) && ks <= m.Keys && IsListing(m, ks, s)
    ensures Actions(Emits(s, a), k) == if k in ks then [a] else []
    decreases |s|
  {
    hide IdentityKey, Keyed, Actions, Emits;
    ListingEmpty(m, ks, s);
    if s == [] {
      NoActions(a, k);
    } else {
      TailListing(m, ks, s);
      assert Identified(s[0]) && IdentityKey(s[0]) in ks by { assert s[0] in s; }
      hide IsListing;
      ActionsOfListing(m, ks - {IdentityKey(s[0])}, s[1..], k, a);
      EmitsCons(s, a);
      ActionsConcat([Emit(s[0], a)], Emits(s[1..], a), k);
      OneAction(Emit(s[0], a), k);
    }
  }

  lemma NoActions(a: Action, k: string)
    ensures Actions(Emits([], a), k) == []
  {
  }

  lemma EmitsCons(s: seq<Instance>, a: Action)
    requires s != []
    ensures Emits(s, a) == [Emit(s[0], a)] + Emits(s[1..], a)
  {
  }

  lemma OneAction(x: Emit, k: string)
    ensures Actions([x], k) == if Identified(x.inst) && IdentityKey(x.inst) == k then [x.action] else []
  {
    assert [x][..0] == [];
  }

  /** What one operation logs for one identity: an exit if it stops being known, a start if it becomes
      known after the baseline, and nothing else. */
  lemma ApplyLogs(e: Engine, op: Op, k: string)
    requires Keyed(e.state)
    ensures var (e', out) := Apply(e, op);
            && Keyed(e'.state)
            && (e.initialized ==> e'.initialized)
            && Actions(out, k) == if k in e.state && k !in e'.state then [ProcessExit]
                                  else if k !in e.state && k in e'.state && e.initialized then [ProcessStart]
                                  else []
  {
    hide IdentityKey, Keyed;
    match op
    case OpReconcile(snap) => ReconcileLogs(e, snap, k);
    case OpHandle(inst, isStart) => HandleLogs(e, inst, isStart, k);
  }

  lemma HandleLogs(e: Engine, inst: Instance, isStart: bool, k: string)
    requires Keyed(e.state)
    ensures var (e', out) := HandleEvent(e, inst, isStart);
            && Keyed(e'.state) && e'.initialized == e.initialized
            && Actions(out, k) == if k in e.state && k !in e'.state then [ProcessExit]
                                  else if k !in e.state && k in e'.state && e.initialized then [ProcessStart]
                                  else []
  {
    hide IdentityKey;
    OneAction(Emit(inst, ProcessStart), k);
    if Identified(inst) && IdentityKey(inst) in e.state {
      OneAction(Emit(e.state[IdentityKey(inst)], ProcessExit), k);
    }
  }

  lemma ReconcileLogs(e: Engine, snap: seq<Instance>, k: string)
    requires Keyed(e.state)
    ensures var (e', out) := Reconcile(e, snap);
            && Keyed(e'.state) && e'.initialized
            && Actions(out, k) == if k in e.state && k !in e'.state then [ProcessExit]
                                  else if k !in e.state && k in e'.state && e.initialized then [ProcessStart]
                                  else []
  {
    hide IdentityKey, Observed, Unobservable, Listing;
    ScanSpec(e.state, snap, |snap|);
    assert snap[..|snap|] == snap;
    if e.initialized {
      var m := Scan(e.state, snap, |snap|);
      var gone, added := Gone(m, snap), m.Keys - e.state.Keys;
      ActionsOfListing(m, gone, Listing(m, gone), k, ProcessExit);
      ActionsOfListing(m, added, Listing(m, added), k, ProcessStart);
      ActionsConcat(Emits(Listing(m, gone), ProcessExit), Emits(Listing(m, added), ProcessStart), k);
    }
  }

  /** The engine, the log and the silent additions after a run. */
  datatype History = History(engine: Engine, out: seq<Emit>, silent: multiset<string>)

  ghost function Run(ops: seq<Op>): (h: History)
    ensures Keyed(h.engine.state)
  {
    if ops == [] then History(NEW_ENGINE, [], multiset{})
    else
      var n := |ops| - 1;
      Extend(Run(ops[..n]), ops[n])
  }

  ghost function Extend(h: History, op: Op): (h': History)
    requires Keyed(h.engine.state)
    ensures Keyed(h'.engine.state)
  {
    var (e', out) := Apply(h.engine, op);
    ApplyLogs(h.engine, op, "");
    History(e', h.out + out,
            if h.engine.initialized then h.silent else h.silent + multiset(e'.state.Keys - h.engine.state.Keys))
  }

  /** The ledger balances in every run: for each identity, starts emitted plus silent additions minus exits
      emitted is one while it is known and zero otherwise. */
  lemma {:induction false} LedgerBalances(ops: seq<Op>, k: string)
    ensures var h := Run(ops);
            Num(Actions(h.out, k), ProcessStart) + h.silent[k] - Num(Actions(h.out, k), ProcessExit)
            == if k in h.engine.state then 1 else 0
  {
    hide IdentityKey, Keyed, Apply;
    if ops != [] {
      var n := |ops| - 1;
      var h := Run(ops[..n]);
      LedgerBalances(ops[..n], k);
      ApplyLogs(h.engine, ops[n], k);
      var out := Apply(h.engine, ops[n]).1;
      ActionsConcat(h.out, out, k);
      NumConcat(Actions(h.out, k), Actions(out, k), ProcessStart);
      NumConcat(Actions(h.out, k), Actions(out, k), ProcessExit);
      ShortNums();
    }
  }

  lemma ShortNums()
    ensures Num([], ProcessStart) == 0 && Num([], ProcessExit) == 0
    ensures Num([ProcessStart], ProcessStart) == 1 && Num([ProcessStart], ProcessExit) == 0
    ensures Num([ProcessExit], ProcessStart) == 0 && Num([ProcessExit], ProcessExit) == 1
  {
    assert [ProcessStart][..0] == [] && [ProcessExit][..0] == [];
  }

  /** What a run logs after its first n operations. */
  ghost function LogSince(ops: seq<Op>, n: nat): (out: seq<Emit>)
    requires n <= |ops|
    decreases |ops|
  {
    if n == |ops| then []
    else
      var m := |ops| - 1;
      LogSince(ops[..m], n) + Apply(Run(ops[..m]).engine, ops[m]).1
  }

  lemma {:induction false} LogSinceIsTheRest(ops: seq<Op>, n: nat)
    requires n <= |ops|
    ensures Run(ops).out == Run(ops[..n]).out + LogSince(ops, n)
    decreases |ops|
  {
    hide Apply, Keyed;
    if n == |ops| {
      assert ops[..n] == ops;
    } else {
      var m := |ops| - 1;
      assert ops[..m][..n] == ops[..n];
      LogSinceIsTheRest(ops[..m], n);
    }
  }

  /** Once the baseline is established, each identity's actions strictly alternate, beginning with an exit
      exactly if it was known then and ending with a start exactly if it is known now. */
  lemma {:induction false} ActionsAlternate(ops: seq<Op>, n: nat, k: string)
    requires n <= |ops| && Run(ops[..n]).engine.initialized
    ensures Alternating(k in Run(ops[..n]).engine.state, Actions(LogSince(ops, n), k), k in Run(ops).engine.state)
    ensures Run(ops).engine.initialized
    decreases |ops|
  {
    hide IdentityKey, Keyed, Apply, Alternating, Actions, Run, LogSince;
    ShortAlternations();
    if n == |ops| {
      assert ops[..n] == ops;
      EmptyLog(ops, k);
    } else {
      var m := |ops| - 1;
      assert ops[..m][..n] == ops[..n];
      ActionsAlternate(ops[..m], n, k);
      var h := Run(ops[..m]);
      ApplyLogs(h.engine, ops[m], k);
      LastStep(ops, n);
      var out := Apply(h.engine, ops[m]).1;
      ActionsConcat(LogSince(ops[..m], n), out, k);
      AlternatingConcat(k in Run(ops[..n]).engine.state, Actions(LogSince(ops[..m], n), k), k in h.engine.state,
                        Actions(out, k), k in Run(ops).engine.state);
    }
  }

  lemma EmptyLog(ops: seq<Op>, k: string)
    ensures Actions(LogSince(ops, |ops|), k) == []
  {
  }

  lemma LastStep(ops: seq<Op>, n: nat)
    requires n < |ops|
    ensures var m := |ops| - 1;
            && Run(ops).engine == Apply(Run(ops[..m]).engine, ops[m]).0
            && LogSince(ops, n) == LogSince(ops[..m], n) + Apply(Run(ops[..m]).engine, ops[m]).1
  {
    hide Apply, Keyed;
  }

  lemma ShortAlternations()
    ensures Alternating(true, [], true) && Alternating(false, [], false)
    ensures Alternating(true, [ProcessExit], false) && Alternating(false, [ProcessStart], true)
  {
    assert [ProcessStart][..0] == [] && [ProcessExit][..0] == [];
  }

  // ----- One live instance per PID -----

  predicate PidUnique(snap: seq<Instance>) {
    forall i, j | 0 <= i < j < |snap| :: snap[i].pid != snap[j].pid
  }

  ghost predicate OnePerPid(m: map<string, Instance>) {
    forall k, k' | k in m && k' in m && m[k].pid == m[k'].pid :: k == k'
  }

  lemma ObservedAt(m: map<string, Instance>, snap: seq<Instance>, k: string) returns (i: nat)
    requires Keyed(m) && k in m && k in Observed(snap)
    ensures i < |snap| && Identified(snap[i]) && snap[i].pid == m[k].pid
    ensures IdentityKey(snap[i]) == k
  {
    hide IdentityKey;
    var x :| x in snap && Identified(x) && IdentityKey(x) == k;
    KeyBasics(x, m[k]);
    i :| 0 <= i < |snap| && snap[i] == x;
  }

  /** A known instance that survives a reconciliation was observed, or its PID was listed without a start time. */
  lemma SurvivorAt(e: Engine, snap: seq<Instance>, k: string) returns (i: nat)
    requires Keyed(e.state) && (!e.initialized ==> e.state == map[])
    requires k in Reconcile(e, snap).0.state
    ensures var m := Reconcile(e, snap).0.state;
            && Keyed(m) && i < |snap| && snap[i].pid == m[k].pid
            && if Identified(snap[i]) then IdentityKey(snap[i]) == k else k in e.state && m[k] == e.state[k]
  {
    hide IdentityKey, Observed, Listing;
    ScanSpec(e.state, snap, |snap|);
    assert snap[..|snap|] == snap;
    var m := Scan(e.state, snap, |snap|);
    if k in Observed(snap) {
      i := ObservedAt(m, snap, k);
    } else {
      var x :| x in snap && !Identified(x) && x.pid == m[k].pid;
      i :| 0 <= i < |snap| && snap[i] == x;
    }
  }

  /** Snapshots that list each PID once keep at most one live instance per PID. */
  lemma ReconcileKeepsOnePerPid(e: Engine, snap: seq<Instance>)
    requires Keyed(e.state) && OnePerPid(e.state) && PidUnique(snap)
    requires !e.initialized ==> e.state == map[]
    ensures OnePerPid(Reconcile(e, snap).0.state)
  {
    hide IdentityKey, Reconcile;
    var m := Reconcile(e, snap).0.state;
    forall k, k' | k in m && k' in m && m[k].pid == m[k'].pid ensures k == k' {
      var i := SurvivorAt(e, snap, k);
      var i' := SurvivorAt(e, snap, k');
      assert i == i';
    }
  }

  ghost function ReconcileAll(snaps: seq<seq<Instance>>): (e: Engine)
    ensures Keyed(e.state) && (snaps != [] ==> e.initialized) && (snaps == [] ==> e == NEW_ENGINE)
  {
    if snaps == [] then NEW_ENGINE
    else
      var e := ReconcileAll(snaps[..|snaps| - 1]);
      ReconcileLogs(e, snaps[|snaps| - 1], "");
      Reconcile(e, snaps[|snaps| - 1]).0
  }

  /** PID reuse is resolved: in any run of reconciliations over such snapshots no two live instances share a PID. */
  lemma {:induction false} OneLiveInstancePerPid(snaps: seq<seq<Instance>>)
    requires forall s | s in snaps :: PidUnique(s)
    ensures OnePerPid(ReconcileAll(snaps).state)
  {
    hide Reconcile, PidUnique, Keyed;
    if snaps != [] {
      var n := |snaps| - 1;
      OneLiveInstancePerPid(snaps[..n]);
      assert snaps[n] in snaps;
      ReconcileKeepsOnePerPid(ReconcileAll(snaps[..n]), snaps[n]);
    }
  }
}
