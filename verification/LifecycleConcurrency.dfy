/** The engine emits after it has released its lock, so the emits of concurrent calls can interleave. Here a
    decision and the delivery of its emits are separate steps. */
module LifecycleConcurrency {
  import opened Wrappers
  import opened ProcessModel
  import opened Lifecycle
  import opened LifecycleProperties

  datatype Conc = Conc(h: History, pending: multiset<Emit>, channel: seq<Emit>)

  datatype ConcStep = Decide(op: Op) | Deliver(x: Emit)

  ghost function ConcRun(steps: seq<ConcStep>): (c: Conc)
    ensures Keyed(c.h.engine.state)
  {
    if steps == [] then Conc(Run([]), multiset{}, [])
    else
      ConcNext(ConcRun(steps[..|steps| - 1]), steps[|steps| - 1])
  }

  ghost function ConcNext(c: Conc, step: ConcStep): (c': Conc)
    requires Keyed(c.h.engine.state)
    ensures Keyed(c'.h.engine.state)
  {
    match step
    case Decide(op) => Conc(Extend(c.h, op), c.pending + multiset(Apply(c.h.engine, op).1), c.channel)
    case Deliver(x) => if x in c.pending then Conc(c.h, c.pending - multiset{x}, c.channel + [x]) else c
  }

  /** The calls decided, in the order they held the lock. */
  function Decided(steps: seq<ConcStep>): seq<Op> {
    if steps == [] then []
    else
      var n := |steps| - 1;
      Decided(steps[..n]) + match steps[n]
                            case Decide(op) => [op]
                            case Deliver(_) => []
  }

  lemma {:induction false} DecisionsAreSequential(steps: seq<ConcStep>)
    ensures ConcRun(steps).h == Run(Decided(steps))
    ensures multiset(ConcRun(steps).channel) + ConcRun(steps).pending == multiset(Run(Decided(steps)).out)
  {
    hide Apply, Keyed, Extend, ConcNext;
    if steps != [] {
      var n := |steps| - 1;
      DecisionsAreSequential(steps[..n]);
      NextAccounts(ConcRun(steps[..n]), steps[n]);
      var ops := Decided(steps[..n]);
      match steps[n] {
        case Decide(op) =>
          assert (ops + [op])[..|ops|] == ops;
        case Deliver(x) =>
          assert Decided(steps) == ops;
      }
    }
  }

  /** A step logs what it decides and loses nothing it has to deliver. */
  lemma NextAccounts(c: Conc, step: ConcStep)
    requires Keyed(c.h.engine.state) && multiset(c.channel) + c.pending == multiset(c.h.out)
    ensures var c' := ConcNext(c, step);
            && c'.h == (match step
                        case Decide(op) => Extend(c.h, op)
                        case Deliver(_) => c.h)
            && multiset(c'.channel) + c'.pending == multiset(c'.h.out)
  {
    hide Apply, Keyed;
  }

  lemma {:induction false} PermutationKeepsCounts(s: seq<Emit>, t: seq<Emit>, k: string, a: Action)
    requires multiset(s) == multiset(t)
    ensures Num(Actions(s, k), a) == Num(Actions(t, k), a)
    decreases |s|
  {
    hide Actions, Num;
    if s == [] {
      assert |multiset(t)| == 0;
      assert t == [];
    } else {
      var n := |s| - 1;
      var x := s[n];
      assert x in multiset(s);
      assert x in t;
      var i :| 0 <= i < |t| && t[i] == x;
      var rest := t[..i] + t[i + 1..];
      assert t == t[..i] + [x] + t[i + 1..];
      assert s == s[..n] + [x];
      assert multiset(s[..n]) == multiset(s) - multiset{x} == multiset(t) - multiset{x} == multiset(rest);
      PermutationKeepsCounts(s[..n], rest, k, a);
      Moved(t[..i], x, t[i + 1..], k, a);
      Moved(s[..n], x, [], k, a);
      assert s[..n] + [x] + [] == s && s[..n] + [] == s[..n];
    }
  }

  lemma Moved(u: seq<Emit>, x: Emit, v: seq<Emit>, k: string, a: Action)
    ensures Num(Actions(u + [x] + v, k), a) == Num(Actions(u + v, k), a) + Num(Actions([x], k), a)
  {
    hide Actions, Num;
    ActionsConcat(u + [x], v, k);
    ActionsConcat(u, [x], k);
    ActionsConcat(u, v, k);
    NumConcat(Actions(u + [x], k), Actions(v, k), a);
    NumConcat(Actions(u, k), Actions([x], k), a);
    NumConcat(Actions(u, k), Actions(v, k), a);
  }

  /** Whatever the interleaving, once every emit is delivered the channel balances as the ledger does. */
  lemma ChannelBalances(steps: seq<ConcStep>, k: string)
    requires ConcRun(steps).pending == multiset{}
    ensures var c := ConcRun(steps);
            Num(Actions(c.channel, k), ProcessStart) + c.h.silent[k] - Num(Actions(c.channel, k), ProcessExit)
            == if k in c.h.engine.state then 1 else 0
  {
    hide Actions, Num, Keyed;
    DecisionsAreSequential(steps);
    var c := ConcRun(steps);
    PermutationKeepsCounts(c.channel, c.h.out, k, ProcessStart);
    PermutationKeepsCounts(c.channel, c.h.out, k, ProcessExit);
    LedgerBalances(Decided(steps), k);
  }

  // ----- When the channel keeps the order -----

  lemma {:induction false} AlternationsAreUnique(p: bool, a: seq<Action>, b: seq<Action>, q: bool)
    requires Alternating(p, a, q) && Alternating(p, b, q) && |a| == |b|
    ensures a == b
  {
    if a != [] {
      var n := |a| - 1;
      AlternationsAreUnique(p, a[..n], b[..n], !q);
      assert a == a[..n] + [a[n]] && b == b[..n] + [b[n]];
    }
  }

  lemma {:induction false} LengthIsCounts(a: seq<Action>)
    ensures |a| == Num(a, ProcessStart) + Num(a, ProcessExit)
  {
    if a != [] { LengthIsCounts(a[..|a| - 1]); }
  }

  /** However the emits interleave on their way, once all are delivered an identity's actions alternate on the
      channel exactly if they arrive in the order in which they were decided. */
  lemma ChannelAlternatesExactly(steps: seq<ConcStep>, k: string, p: bool, q: bool)
    requires ConcRun(steps).pending == multiset{}
    requires Alternating(p, Actions(ConcRun(steps).h.out, k), q)
    ensures Alternating(p, Actions(ConcRun(steps).channel, k), q)
            <==> Actions(ConcRun(steps).channel, k) == Actions(ConcRun(steps).h.out, k)
  {
    hide Actions, Num, Alternating, Keyed;
    DecisionsAreSequential(steps);
    var sent, decided := ConcRun(steps).channel, ConcRun(steps).h.out;
    PermutationKeepsCounts(sent, decided, k, ProcessStart);
    PermutationKeepsCounts(sent, decided, k, ProcessExit);
    LengthIsCounts(Actions(sent, k));
    LengthIsCounts(Actions(decided, k));
    if Alternating(p, Actions(sent, k), q) {
      AlternationsAreUnique(p, Actions(sent, k), Actions(decided, k), q);
    }
  }

  /** With the baseline first, that is whether the channel alternates from what the baseline knew to what is
      known now. */
  lemma BaselinedChannelAlternatesExactly(steps: seq<ConcStep>, k: string)
    requires ConcRun(steps).pending == multiset{}
    requires Decided(steps) != [] && Decided(steps)[0].OpReconcile?
    ensures var c := ConcRun(steps);
            Alternating(k in Run(Decided(steps)[..1]).engine.state, Actions(c.channel, k), k in c.h.engine.state)
            <==> Actions(c.channel, k) == Actions(c.h.out, k)
  {
    hide Actions, Alternating, Keyed, Apply, LogSince;
    var ops := Decided(steps);
    DecisionsAreSequential(steps);
    BaselineIsSilent(ops);
    ActionsAlternate(ops, 1, k);
    LogSinceIsTheRest(ops, 1);
    assert Run(ops).out == LogSince(ops, 1);
    ChannelAlternatesExactly(steps, k, k in Run(ops[..1]).engine.state, k in Run(ops).engine.state);
  }

  lemma BaselineIsSilent(ops: seq<Op>)
    requires ops != [] && ops[0].OpReconcile?
    ensures Run(ops[..1]).engine.initialized && Run(ops[..1]).out == []
  {
    hide IdentityKey, Keyed;
    assert ops[..1][..0] == [];
    assert Run([]).engine == NEW_ENGINE;
  }

  /** Every delivery takes the oldest emit not yet delivered. */
  ghost predicate InOrder(steps: seq<ConcStep>) {
    forall n | 0 <= n < |steps| && steps[n].Deliver? ::
      var c := ConcRun(steps[..n]);
      |c.channel| < |c.h.out| && steps[n].x == c.h.out[|c.channel|]
  }

  lemma {:induction false} InOrderIsPrefix(steps: seq<ConcStep>)
    requires InOrder(steps)
    ensures ConcRun(steps).channel <= ConcRun(steps).h.out
  {
    hide ConcNext, Keyed;
    if steps != [] {
      var n := |steps| - 1;
      assert InOrder(steps[..n]) by {
        forall i | 0 <= i < n && steps[i].Deliver?
          ensures var c := ConcRun(steps[..n][..i]); |c.channel| < |c.h.out| && steps[i].x == c.h.out[|c.channel|]
        {
          assert steps[..n][..i] == steps[..i];
        }
      }
      InOrderIsPrefix(steps[..n]);
      PrefixGrows(ConcRun(steps[..n]), steps[n]);
    }
  }

  lemma PrefixGrows(c: Conc, step: ConcStep)
    requires Keyed(c.h.engine.state) && c.channel <= c.h.out
    requires step.Deliver? ==> |c.channel| < |c.h.out| && step.x == c.h.out[|c.channel|]
    ensures ConcNext(c, step).channel <= ConcNext(c, step).h.out
  {
    hide Apply, Keyed;
    match step
    case Decide(op) => assert c.h.out <= Extend(c.h, op).out;
    case Deliver(x) => assert c.h.out[..|c.channel| + 1] == c.channel + [x];
  }

  /** Delivered oldest first, the channel shows exactly what the calls decided, in order. */
  lemma InOrderChannelIsTheLog(steps: seq<ConcStep>)
    requires InOrder(steps) && ConcRun(steps).pending == multiset{}
    ensures ConcRun(steps).channel == Run(Decided(steps)).out
  {
    hide InOrder, Keyed;
    InOrderIsPrefix(steps);
    DecisionsAreSequential(steps);
    var c := ConcRun(steps);
    assert |multiset(c.channel)| == |c.channel| && |multiset(c.h.out)| == |c.h.out|;
    assert c.h.out[..|c.channel|] == c.channel;
  }

  const PROCESS := Instance(7, Some(1), "")

  /** A start and an exit of one process, decided in that order, whose emits overtake each other. */
  const OVERTAKEN: seq<ConcStep> := [
    Decide(OpReconcile([])),
    Decide(OpHandle(PROCESS, true)),
    Decide(OpHandle(PROCESS, false)),
    Deliver(Emit(PROCESS, ProcessExit)),
    Deliver(Emit(PROCESS, ProcessStart))
  ]

  /** The order on the channel is not guaranteed: an exit can be delivered before its start. */
  lemma ChannelOrderCanInvert()
    ensures var c := ConcRun(OVERTAKEN);
            && c.pending == multiset{}
            && c.channel == [Emit(PROCESS, ProcessExit), Emit(PROCESS, ProcessStart)]
            && !Alternating(false, Actions(c.channel, IdentityKey(PROCESS)), IdentityKey(PROCESS) in c.h.engine.state)
  {
    hide Apply, ConcRun, Actions, IdentityKey;
    DecidedOvertaken();
    DeliveredOvertaken(ConcRun(OVERTAKEN[..3]));
    var c := ConcRun(OVERTAKEN);
    var x, s := Emit(PROCESS, ProcessExit), Emit(PROCESS, ProcessStart);
    OneAction(x, IdentityKey(PROCESS));
    OneAction(s, IdentityKey(PROCESS));
    ActionsConcat([x], [s], IdentityKey(PROCESS));
    assert c.channel == [x] + [s];
    assert Actions(c.channel, IdentityKey(PROCESS)) == [ProcessExit, ProcessStart];
  }

  lemma OneMore(steps: seq<ConcStep>, k: nat)
    requires k < |steps|
    ensures ConcRun(steps[..k + 1]) == ConcNext(ConcRun(steps[..k]), steps[k])
  {
    hide ConcNext;
    assert steps[..k + 1][..k] == steps[..k];
  }

  /** Both emits wait once the two calls have returned the lock. */
  lemma DecidedOvertaken()
    ensures var c := ConcRun(OVERTAKEN[..3]);
            && c.pending == multiset{Emit(PROCESS, ProcessStart), Emit(PROCESS, ProcessExit)}
            && c.channel == []
            && IdentityKey(PROCESS) !in c.h.engine.state
  {
    hide IdentityKey, ConcNext, ConcRun, Keyed;
    OneMore(OVERTAKEN, 0);
    OneMore(OVERTAKEN, 1);
    OneMore(OVERTAKEN, 2);
    Baseline();
    var c := ConcRun(OVERTAKEN[..1]);
    StartThenExit(c);
  }

  lemma StartThenExit(c: Conc)
    requires c.h.engine == Engine(map[], true) && c.pending == multiset{} && c.channel == []
    ensures var d := ConcNext(ConcNext(c, Decide(OpHandle(PROCESS, true))), Decide(OpHandle(PROCESS, false)));
            && d.pending == multiset{Emit(PROCESS, ProcessStart), Emit(PROCESS, ProcessExit)}
            && d.channel == []
            && IdentityKey(PROCESS) !in d.h.engine.state
  {
    hide IdentityKey, Reconcile;
    assert ConcNext(c, Decide(OpHandle(PROCESS, true))).h.engine == Engine(map[IdentityKey(PROCESS) := PROCESS], true);
  }

  lemma Baseline()
    ensures var c := ConcNext(ConcRun(OVERTAKEN[..0]), Decide(OpReconcile([])));
            c.h.engine == Engine(map[], true) && c.pending == multiset{} && c.channel == []
  {
    hide IdentityKey;
  }

  lemma DeliveredOvertaken(c: Conc)
    requires c == ConcRun(OVERTAKEN[..3])
    requires c.pending == multiset{Emit(PROCESS, ProcessStart), Emit(PROCESS, ProcessExit)} && c.channel == []
    ensures ConcRun(OVERTAKEN) == Conc(c.h, multiset{}, [Emit(PROCESS, ProcessExit), Emit(PROCESS, ProcessStart)])
  {
    hide Apply, Extend, IdentityKey, ConcRun, Keyed;
    OneMore(OVERTAKEN, 3);
    OneMore(OVERTAKEN, 4);
    assert OVERTAKEN[..5] == OVERTAKEN;
  }
}
