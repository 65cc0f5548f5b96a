/** The process lifecycle engine: snapshots and events reconciled against the known instances
    (agent/internal/collectors/process/lifecycle.go). Emitted actions are logged in the order of the emit
    calls; a call is one step. */
module Lifecycle {
  import opened ProcessModel

  datatype Action = ProcessStart | ProcessExit

  datatype Emit = Emit(inst: Instance, action: Action)

  datatype Engine = Engine(state: map<string, Instance>, initialized: bool)

  const NEW_ENGINE := Engine(map[], false)

  /** Every instance lies under its own key. */
  ghost predicate Keyed(m: map<string, Instance>) {
    forall k | k in m :: Identified(m[k]) && IdentityKey(m[k]) == k
  }

  function Observed(snap: seq<Instance>): set<string> {
    set i | i in snap && Identified(i) :: IdentityKey(i)
  }

  function Unobservable(snap: seq<Instance>): set<int> {
    set i | i in snap && !Identified(i) :: i.pid
  }

  /** The known instances after the first n of the snapshot were looked at: the first one seen under a new
      key is kept. */
  function Scan(m: map<string, Instance>, snap: seq<Instance>, n: nat): map<string, Instance>
    requires n <= |snap|
  {
    if n == 0 then m
    else
      var m' := Scan(m, snap, n - 1);
      var i := snap[n - 1];
      if Identified(i) && IdentityKey(i) !in m' then m'[IdentityKey(i) := i] else m'
  }

  /** Instances known, not observed, and not merely unobservable. */
  function Gone(m: map<string, Instance>, snap: seq<Instance>): set<string> {
    set k | k in m && k !in Observed(snap) && m[k].pid !in Unobservable(snap)
  }

  // ----- Listing instances in emission order -----

  ghost predicate IsFirst(m: map<string, Instance>, ks: set<string>, k: string)
    requires Keyed(m) && ks <= m.Keys
  {
    k in ks && forall k' | k' in ks && k' != k :: Before(m[k], m[k'])
  }

  lemma FirstExists(m: map<string, Instance>, ks: set<string>)
    requires Keyed(m) && ks <= m.Keys && ks != {}
    ensures exists k :: IsFirst(m, ks, k)
  {
    var a :| a in ks;
    var rest := ks - {a};
    if rest == {} {
      assert ks == {a};
      assert IsFirst(m, ks, a);
    } else {
      FirstExists(m, rest);
      var b :| IsFirst(m, rest, b);
      KeysApart(m, a, b);
      var k := if Before(m[a], m[b]) then a else b;
      forall k' | k' in ks && k' != k ensures Before(m[k], m[k']) {
        if k' != a && k' != b { assert k' in rest; }
      }
      assert IsFirst(m, ks, k);
    }
  }

  lemma KeysApart(m: map<string, Instance>, a: string, b: string)
    requires Keyed(m) && a in m && b in m && a != b
    ensures Before(m[a], m[b]) <==> !Before(m[b], m[a])
  {
    KeyBasics(m[a], m[b]);
  }

  ghost function First(m: map<string, Instance>, ks: set<string>): (k: string)
    requires Keyed(m) && ks <= m.Keys && ks != {}
    ensures IsFirst(m, ks, k)
  {
    FirstExists(m, ks);
    var k :| IsFirst(m, ks, k);
    k
  }

  /** The instances under the keys ks, ascending by PID and start time. */
  ghost function Listing(m: map<string, Instance>, ks: set<string>): (s: seq<Instance>)
    requires Keyed(m) && ks <= m.Keys
    ensures IsListing(m, ks, s)
  {
    if ks == {} then []
    else
      var k := First(m, ks);
      var rest := Listing(m, ks - {k});
      ListingStep(m, ks, k, rest);
      [m[k]] + rest
  }

  /** s lists exactly the instances under ks, in strictly ascending order. */
  ghost predicate IsListing(m: map<string, Instance>, ks: set<string>, s: seq<Instance>)
    requires Keyed(m) && ks <= m.Keys
  {
    && (forall i | i in s :: Identified(i) && IdentityKey(i) in ks && m[IdentityKey(i)] == i)
    && (forall k | k in ks :: m[k] in s)
    && (forall i, j | 0 <= i < j < |s| :: Before(s[i], s[j]))
  }

  lemma ListingStep(m: map<string, Instance>, ks: set<string>, k: string, rest: seq<Instance>)
    requires Keyed(m) && ks <= m.Keys && IsFirst(m, ks, k) && IsListing(m, ks - {k}, rest)
    ensures IsListing(m, ks, [m[k]] + rest)
  {
    var s := [m[k]] + rest;
    forall j | 0 < j < |s| ensures Before(s[0], s[j]) {
      assert s[j] in rest;
    }
  }

  /** There is only one such listing. */
  lemma {:induction false} ListingUnique(m: map<string, Instance>, ks: set<string>, s: seq<Instance>, t: seq<Instance>)
    requires Keyed(m) && ks <= m.Keys && IsListing(m, ks, s) && IsListing(m, ks, t)
    ensures s == t
    decreases |s|
  {
    hide IdentityKey;
    ListingEmpty(m, ks, s);
    ListingEmpty(m, ks, t);
    if s != [] {
      SameHead(m, ks, s, t);
      var k := IdentityKey(s[0]);
      TailListing(m, ks, s);
      TailListing(m, ks, t);
      ListingUnique(m, ks - {k}, s[1..], t[1..]);
      assert s == [s[0]] + s[1..] && t == [t[0]] + t[1..];
    }
  }

  lemma ListingEmpty(m: map<string, Instance>, ks: set<string>, s: seq<Instance>)
    requires Keyed(m) && ks <= m.Keys && IsListing(m, ks, s)
    ensures s == [] <==> ks == {}
  {
    if s != [] { assert s[0] in s; }
    if ks != {} {
      var k :| k in ks;
      assert m[k] in s;
    }
  }

  lemma SameHead(m: map<string, Instance>, ks: set<string>, s: seq<Instance>, t: seq<Instance>)
    requires Keyed(m) && ks <= m.Keys && IsListing(m, ks, s) && IsListing(m, ks, t) && s != []
    ensures t != [] && t[0] == s[0]
  {
    hide IdentityKey;
    assert s[0] in s;
    assert s[0] in t;
    assert t[0] in t;
    assert t[0] in s;
  }

  lemma TailListing(m: map<string, Instance>, ks: set<string>, s: seq<Instance>)
    requires Keyed(m) && ks <= m.Keys && IsListing(m, ks, s) && s != []
    ensures IsListing(m, ks - {IdentityKey(s[0])}, s[1..])
  {
    var k := IdentityKey(s[0]);
    assert s[0] in s;
    forall i | i in s[1..] ensures IdentityKey(i) != k {
      assert i in s;
    }
  }

  function Emits(s: seq<Instance>, a: Action): seq<Emit> {
    seq(|s|, i requires 0 <= i < |s| => Emit(s[i], a))
  }

  // ----- The two operations -----

  lemma ObservedSnoc(snap: seq<Instance>, i: Instance)
    ensures Observed(snap + [i]) == Observed(snap) + if Identified(i) then {IdentityKey(i)} else {}
  {
    hide IdentityKey;
  }

  lemma {:induction false} ScanSpec(m: map<string, Instance>, snap: seq<Instance>, n: nat)
    requires Keyed(m) && n <= |snap|
    ensures var m' := Scan(m, snap, n);
            && Keyed(m')
            && m'.Keys == m.Keys + Observed(snap[..n])
            && (forall k | k in m :: m'[k] == m[k])
            && (forall k | k in m' && k !in m :: m'[k] in snap[..n])
  {
    hide IdentityKey, Observed;
    if n > 0 {
      ScanSpec(m, snap, n - 1);
      assert snap[..n] == snap[..n - 1] + [snap[n - 1]];
      ObservedSnoc(snap[..n - 1], snap[n - 1]);
    } else {
      NothingObserved();
    }
  }

  lemma NothingObserved()
    ensures Observed([]) == {}
  {
  }

  ghost function Reconcile(e: Engine, snap: seq<Instance>): (Engine, seq<Emit>)
    requires Keyed(e.state)
  {
    ScanSpec(e.state, snap, |snap|);
    var m := Scan(e.state, snap, |snap|);
    if !e.initialized then (Engine(m, true), [])
    else
      var gone := Gone(m, snap);
      (Engine(m - gone, true),
       Emits(Listing(m, gone), ProcessExit) + Emits(Listing(m, m.Keys - e.state.Keys), ProcessStart))
  }

  function HandleEvent(e: Engine, inst: Instance, isStart: bool): (Engine, seq<Emit>) {
    if !Identified(inst) then (e, [])
    else
      var k := IdentityKey(inst);
      if isStart then
        if k in e.state then (e, [])
        else (e.(state := e.state[k := inst]), if e.initialized then [Emit(inst, ProcessStart)] else [])
      else
        if k in e.state then (e.(state := e.state - {k}), [Emit(e.state[k], ProcessExit)])
        else (e, [])
  }
}
