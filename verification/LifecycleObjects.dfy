/** The lifecycle engine in its own form: a keyed map updated in place, two slices built by loops and
    sorted, and an output channel. The map is walked in an arbitrary order, as Go does. */
module LifecycleObjects {
  import opened Wrappers
  import opened ProcessModel
  import opened Lifecycle

  // ----- sort.Slice -----

  /** No two of the instances have the same PID and start time. */
  ghost predicate Distinct(s: seq<Instance>) {
    && (forall x | x in s :: Identified(x))
    && (forall i, j | 0 <= i < j < |s| :: Before(s[i], s[j]) || Before(s[j], s[i]))
  }

  ghost predicate Ascending(s: seq<Instance>) {
    && (forall x | x in s :: Identified(x))
    && (forall i, j | 0 <= i < j < |s| :: Before(s[i], s[j]))
  }

  function InsertSorted(s: seq<Instance>, x: Instance): (r: seq<Instance>)
    requires Ascending(s) && Identified(x) && forall y | y in s :: Before(x, y) || Before(y, x)
    ensures Ascending(r) && |r| == |s| + 1 && forall y :: y in r <==> y == x || y in s
  {
    if s == [] then [x]
    else
      var n := |s| - 1;
      LastIsGreatest(s);
      if Before(s[n], x) then
        AppendGreatest(s, x);
        s + [x]
      else
        var r := InsertSorted(s[..n], x);
        AppendGreatest(r, s[n]);
        r + [s[n]]
  }

  lemma LastIsGreatest(s: seq<Instance>)
    requires Ascending(s) && s != []
    ensures var n := |s| - 1;
            && s[n] in s && s == s[..n] + [s[n]] && Ascending(s[..n])
            && (forall y | y in s[..n] :: y in s && Before(y, s[n]))
            && (forall y | y in s :: y == s[n] || y in s[..n])
  {
    var n := |s| - 1;
    assert s == s[..n] + [s[n]];
    assert forall y | y in s[..n] :: y in s;
  }

  lemma AppendGreatest(r: seq<Instance>, x: Instance)
    requires Ascending(r) && Identified(x)
    ensures (forall y | y in r :: Before(y, x)) ==> Ascending(r + [x])
    ensures forall y :: y in r + [x] <==> y == x || y in r
  {
    if forall y | y in r :: Before(y, x) {
      forall i, j | 0 <= i < j < |r + [x]| ensures Before((r + [x])[i], (r + [x])[j]) {
        assert r[i] in r;
      }
    }
  }

  /** The slice in ascending order of PID and start time. */
  function SortSlice(s: seq<Instance>): (r: seq<Instance>)
    requires Distinct(s)
    ensures Ascending(r) && |r| == |s| && forall x :: x in r <==> x in s
  {
    if s == [] then []
    else
      var n := |s| - 1;
      assert s == s[..n] + [s[n]];
      InsertSorted(SortSlice(s[..n]), s[n])
  }

  /** s holds, without repetition, exactly the instances under ks. */
  ghost predicate Collects(m: map<string, Instance>, ks: set<string>, s: seq<Instance>)
    requires Keyed(m) && ks <= m.Keys
  {
    && (forall x | x in s :: Identified(x) && IdentityKey(x) in ks && m[IdentityKey(x)] == x)
    && (forall k | k in ks :: m[k] in s)
    && (forall i, j | 0 <= i < j < |s| :: s[i] != s[j])
  }

  lemma CollectsOneMore(m: map<string, Instance>, ks: set<string>, s: seq<Instance>, k: string)
    requires Keyed(m) && ks <= m.Keys && Collects(m, ks, s) && k in m && k !in ks
    ensures Collects(m, ks + {k}, s + [m[k]])
  {
    hide IdentityKey;
  }

  lemma CollectsInLarger(m: map<string, Instance>, m': map<string, Instance>, ks: set<string>, s: seq<Instance>)
    requires Keyed(m) && Keyed(m') && ks <= m.Keys && ks <= m'.Keys && Collects(m, ks, s)
    requires forall k | k in ks :: m'[k] == m[k]
    ensures Collects(m', ks, s)
  {
    hide IdentityKey;
  }

  lemma SortedCollection(m: map<string, Instance>, ks: set<string>, s: seq<Instance>)
    requires Keyed(m) && ks <= m.Keys && Collects(m, ks, s)
    ensures Distinct(s) && SortSlice(s) == Listing(m, ks)
  {
    hide IdentityKey, SortSlice, Listing;
    forall i, j | 0 <= i < j < |s| ensures Before(s[i], s[j]) || Before(s[j], s[i]) {
      assert s[i] in s && s[j] in s;
      KeyBasics(s[i], s[j]);
    }
    ListingUnique(m, ks, SortSlice(s), Listing(m, ks));
  }

  /** The emits a cancelled context lets through to the channel. */
  function Sent(es: seq<Emit>, drops: nat -> bool): seq<Emit> {
    if es == [] then []
    else
      var n := |es| - 1;
      Sent(es[..n], drops) + if drops(n) then [] else [es[n]]
  }

  lemma SentSnoc(es: seq<Emit>, n: nat, drops: nat -> bool)
    requires n < |es|
    ensures Sent(es[..n + 1], drops) == Sent(es[..n], drops) + if drops(n) then [] else [es[n]]
  {
    assert es[..n + 1][..n] == es[..n];
  }

  lemma {:induction false} NothingDropped(es: seq<Emit>, drops: nat -> bool)
    requires forall n :: !drops(n)
    ensures Sent(es, drops) == es
  {
    if es != [] {
      NothingDropped(es[..|es| - 1], drops);
    }
  }

  class LifecycleEngine {
    var state: map<string, Instance>
    var initialized: bool
    var out: seq<Emit>

    function Contents(): Engine
      reads this
    {
      Engine(state, initialized)
    }

    constructor ()
      ensures Contents() == NEW_ENGINE && out == []
    {
      state, initialized, out := map[], false, [];
    }

    method EmitAll(insts: seq<Instance>, action: Action, ghost before: seq<Emit>, ghost earlier: seq<Emit>,
                   drops: nat -> bool, first: nat)
      requires first == |earlier| && out == before + Sent(earlier, drops)
      modifies this`out
      ensures out == before + Sent(earlier + Emits(insts, action), drops)
    {
      hide Sent;
      ghost var all := earlier + Emits(insts, action);
      assert all[..first] == earlier;
      for i := 0 to |insts|
        invariant out == before + Sent(all[..first + i], drops)
      {
        SentSnoc(all, first + i, drops);
        if !drops(first + i) {
          out := out + [Emit(insts[i], action)];
        }
      }
      assert all[..first + |insts|] == all;
    }

    /** The loop over the snapshot: what is observable, and which instances are new. */
    method ScanSnapshot(snap: seq<Instance>)
      returns (observed: set<string>, unobservable: set<int>, starts: seq<Instance>)
      requires Keyed(state)
      modifies this`state
      ensures state == Scan(old(state), snap, |snap|) && Keyed(state) && old(state).Keys <= state.Keys
      ensures observed == Observed(snap) && unobservable == Unobservable(snap)
      ensures Collects(state, if initialized then state.Keys - old(state).Keys else {}, starts)
    {
      hide IdentityKey, Collects;
      ghost var m0 := state;
      observed, unobservable, starts := {}, {}, [];
      NothingCollected(m0);
      assert m0.Keys - m0.Keys == {};
      for i := 0 to |snap|
        invariant state == Scan(m0, snap, i) && Keyed(state) && m0.Keys <= state.Keys
        invariant observed == Observed(snap[..i]) && unobservable == Unobservable(snap[..i])
        invariant Collects(state, if initialized then state.Keys - m0.Keys else {}, starts)
      {
        assert snap[..i + 1] == snap[..i] + [snap[i]];
        ObservedSnoc(snap[..i], snap[i]);
        if !Identified(snap[i]) {
          unobservable := unobservable + {snap[i].pid};
        } else {
          var key := IdentityKey(snap[i]);
          observed := observed + {key};
          if key !in state {
            ghost var added := state.Keys - m0.Keys;
            NewInstance(state, m0.Keys, starts, snap[i], initialized);
            state := state[key := snap[i]];
            if initialized {
              starts := starts + [snap[i]];
            }
          }
        }
      }
      assert snap[..|snap|] == snap;
    }

    /** The loop over the map, in any order, removing what is gone. */
    method RemoveGone(snap: seq<Instance>, observed: set<string>, unobservable: set<int>) returns (exits: seq<Instance>)
      requires Keyed(state) && observed == Observed(snap) && unobservable == Unobservable(snap)
      modifies this`state
      ensures state == old(state) - Gone(old(state), snap)
      ensures Collects(old(state), Gone(old(state), snap), exits)
    {
      hide IdentityKey, Collects, Observed, Unobservable;
      ghost var m := state;
      ghost var gone := Gone(m, snap);
      exits := [];
      var remaining := state.Keys;
      NothingCollected(m);
      assert gone - remaining == {};
      while remaining != {}
        invariant remaining <= m.Keys
        invariant state == m - (gone - remaining)
        invariant Collects(m, gone - remaining, exits)
        decreases |remaining|
      {
        var key :| key in remaining;
        ghost var left := remaining - {key};
        if key !in observed && state[key].pid !in unobservable {
          CollectsOneMore(m, gone - remaining, exits, key);
          assert gone - left == (gone - remaining) + {key};
          exits := exits + [state[key]];
          state := state - {key};
        } else {
          assert gone - left == gone - remaining;
        }
        remaining := remaining - {key};
      }
      assert gone - {} == gone;
    }

    method Reconcile(snap: seq<Instance>, drops: nat -> bool)
      requires Keyed(state)
      modifies this
      ensures var (e, es) := Lifecycle.Reconcile(old(Contents()), snap);
              && Contents() == e
              && out == old(out) + Sent(es, drops)
    {
      hide IdentityKey, Listing, SortSlice, Observed, Unobservable, Scan, Collects;
      ghost var m0 := state;
      ScanSpec(m0, snap, |snap|);
      var observed, unobservable, starts := ScanSnapshot(snap);
      if !initialized {
        initialized := true;
        return;
      }
      ghost var m := state;
      var exits := RemoveGone(snap, observed, unobservable);
      SortedCollection(m, Gone(m, snap), exits);
      SortedCollection(m, m.Keys - m0.Keys, starts);
      exits := SortSlice(exits);
      starts := SortSlice(starts);
      EmitAll(exits, ProcessExit, old(out), [], drops, 0);
      assert [] + Emits(exits, ProcessExit) == Emits(exits, ProcessExit);
      EmitAll(starts, ProcessStart, old(out), Emits(exits, ProcessExit), drops, |exits|);
    }

    method HandleEvent(inst: Instance, isStart: bool, drops: nat -> bool)
      modifies this
      ensures var (e, es) := Lifecycle.HandleEvent(old(Contents()), inst, isStart);
              && Contents() == e
              && out == old(out) + Sent(es, drops)
    {
      hide IdentityKey;
      if !Identified(inst) {
        return;
      }
      var key := IdentityKey(inst);
      var toEmit: Option<Emit> := None;
      if isStart {
        if key !in state {
          state := state[key := inst];
          if initialized {
            toEmit := Some(Emit(inst, ProcessStart));
          }
        }
      } else if key in state {
        toEmit := Some(Emit(state[key], ProcessExit));
        state := state - {key};
      }
      if toEmit.Some? {
        assert [toEmit.value][..0] == [];
        if !drops(0) {
          out := out + [toEmit.value];
        }
      }
    }
  }

  lemma NothingCollected(m: map<string, Instance>)
    requires Keyed(m)
    ensures Collects(m, {}, [])
  {
  }

  lemma NewInstance(m: map<string, Instance>, known: set<string>, starts: seq<Instance>, i: Instance, initialized: bool)
    requires Keyed(m) && known <= m.Keys && Identified(i) && IdentityKey(i) !in m
    requires Collects(m, if initialized then m.Keys - known else {}, starts)
    ensures var m' := m[IdentityKey(i) := i];
            && Keyed(m')
            && Collects(m', if initialized then m'.Keys - known else {}, if initialized then starts + [i] else starts)
  {
    hide IdentityKey, Collects;
    var k := IdentityKey(i);
    var m' := m[k := i];
    var added := m.Keys - known;
    CollectsInLarger(m, m', if initialized then added else {}, starts);
    if initialized {
      CollectsOneMore(m', added, starts, k);
      assert m'.Keys - known == added + {k};
    }
  }
}
