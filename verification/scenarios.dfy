/** A chain of computed values read by an effect, as in the computed tests
    of the reactivity package: `c1 = computed(() => value.foo)`,
    `c2 = computed(() => c1.value + 1)` and `effect(() => c2.value)`.
    Registration invokes the effect, then each getter, once; every later
    write of `value.foo` invokes each of them exactly once more and brings
    the engine back to the same state. */
module Scenarios {
  import opened Values
  import opened Operations
  import opened Store
  import opened Effect
  import opened Consistency
  import opened Computed
  import opened Runtime

  /** The raw object behind `value`, its key, the two computed refs and
      the three raw functions. */
  const Target: Oid := 10
  const Foo: Value := Str("foo")
  const C1: Oid := 20
  const C2: Oid := 21
  const Getter1: FnId := 1
  const Getter2: FnId := 2
  const EffectFn: FnId := 3

  /** The one dep of the scenario: (value, 'foo'). */
  const D := DepRef(Target, Foo)

  const Bodies: map<FnId, Script> :=
    map[Getter1 := [Touch(Target, Get, Foo)], Getter2 := [ReadComputed(C1)], EffectFn := [ReadComputed(C2)]]

  /** Runner 0 belongs to `c1`, runner 1 to `c2`; effect 2 is the plain
      effect. */
  function Runner(raw: FnId, deps: seq<DepRef>, ref: Oid): ReactiveEffect {
    ReactiveEffect(true, raw, deps, true, MarkDirty(ref), false, false, false)
  }

  function Plain(raw: FnId, deps: seq<DepRef>): ReactiveEffect {
    ReactiveEffect(true, raw, deps, false, NoScheduler, false, false, false)
  }

  /** The target map once (value, 'foo') exists, holding `dep`. */
  function TM(dep: seq<EffectId>): TargetMap {
    map[Target := KeyToDepMap([Foo], map[Foo := dep])]
  }

  function Eng(tm: TargetMap, d0: seq<DepRef>, d1: seq<DepRef>, d2: seq<DepRef>, stack: seq<EffectId>): Engine {
    Engine(tm, Effs(d0, d1, d2), stack, true, 3)
  }

  function Effs(d0: seq<DepRef>, d1: seq<DepRef>, d2: seq<DepRef>): map<EffectId, ReactiveEffect> {
    map[0 := Runner(Getter1, d0, C1), 1 := Runner(Getter2, d1, C2), 2 := Plain(EffectFn, d2)]
  }

  /** Replacing one handle's `deps`. */
  lemma SetDeps0(d0: seq<DepRef>, d1: seq<DepRef>, d2: seq<DepRef>, x: seq<DepRef>)
    ensures Effs(d0, d1, d2)[0 := Effs(d0, d1, d2)[0].(deps := x)] == Effs(x, d1, d2)
  {
  }

  lemma SetDeps1(d0: seq<DepRef>, d1: seq<DepRef>, d2: seq<DepRef>, x: seq<DepRef>)
    ensures Effs(d0, d1, d2)[1 := Effs(d0, d1, d2)[1].(deps := x)] == Effs(d0, x, d2)
  {
  }

  lemma SetDeps2(d0: seq<DepRef>, d1: seq<DepRef>, d2: seq<DepRef>, x: seq<DepRef>)
    ensures Effs(d0, d1, d2)[2 := Effs(d0, d1, d2)[2].(deps := x)] == Effs(d0, d1, x)
  {
  }

  function Comps(dirty1: bool, dirty2: bool): map<Oid, ComputedState> {
    map[C1 := ComputedState(dirty1, Undefined, 0, GetterOnly(Getter1)),
        C2 := ComputedState(dirty2, Undefined, 1, GetterOnly(Getter2))]
  }

  function W(eng: Engine, dirty1: bool, dirty2: bool, calls: seq<FnId>): World {
    World(eng, Comps(dirty1, dirty2), Bodies, calls, [])
  }

  /** The settled state: every effect subscribed to (value, 'foo') in
      registration order, both computed values clean. */
  function Settled(calls: seq<FnId>): World {
    W(Eng(TM([0, 1, 2]), [D], [D], [D], []), false, false, calls)
  }

  // ---------------------------------------------------------------------
  // The invariant on the scenario's states

  predicate Listed(d: seq<DepRef>) {
    d == [] || d == [D]
  }

  lemma EngConsistent(dep: seq<EffectId>, d0: seq<DepRef>, d1: seq<DepRef>, d2: seq<DepRef>, stack: seq<EffectId>)
    requires Listed(d0) && Listed(d1) && Listed(d2) && NoDup(dep)
    requires forall e :: e in dep <==> (e == 0 && d0 == [D]) || (e == 1 && d1 == [D]) || (e == 2 && d2 == [D])
    requires forall i :: 0 <= i < |stack| ==> stack[i] <= 2
    ensures Consistent(Eng(TM(dep), d0, d1, d2, stack))
  {
    var eng := Eng(TM(dep), d0, d1, d2, stack);
    forall d, e ensures e in Subscribers(eng.targetMap, d) <==> Lists(eng, e, d) {
      if d == D {
        assert Subscribers(eng.targetMap, d) == dep;
      } else {
        assert Subscribers(eng.targetMap, d) == [];
      }
    }
  }

  lemma EmptyEngConsistent(stack: seq<EffectId>)
    requires forall i :: 0 <= i < |stack| ==> stack[i] <= 2
    ensures Consistent(Eng(map[], [], [], [], stack))
  {
  }

  lemma WInv(eng: Engine, dirty1: bool, dirty2: bool, calls: seq<FnId>)
    requires Consistent(eng)
    requires eng.effects.Keys == {0, 1, 2}
    requires eng.effects[0].scheduler == MarkDirty(C1) && eng.effects[1].scheduler == MarkDirty(C2)
    requires eng.effects[2].scheduler == NoScheduler
    ensures Inv(W(eng, dirty1, dirty2, calls))
  {
  }

  // ---------------------------------------------------------------------
  // The runs, innermost first. `first` marks the first run, on an empty
  // target map; otherwise the run follows a write to 'foo' and starts
  // from the settled subscriptions.

  /** The engine when runner `k` is about to run. */
  function Before(first: bool, k: nat): Engine
    requires k <= 2
  {
    if first then Eng(map[], [], [], [], StackBelow(k))
    else if k == 0 then Eng(TM([0]), [D], [], [], [2, 1])
    else if k == 1 then Eng(TM([0, 1]), [D], [D], [], [2])
    else Eng(TM([0, 1, 2]), [D], [D], [D], [])
  }

  /** The runs below runner `k` on the stack. */
  function StackBelow(k: nat): seq<EffectId> {
    if k == 0 then [2, 1] else if k == 1 then [2] else []
  }

  /** The target map once runner 0 is cleaned up: (value, 'foo') exists
      but is empty, unless it was never created. */
  function Cleared(first: bool): TargetMap {
    if first then map[] else TM([])
  }

  lemma BeforeInv(first: bool, k: nat, dirty1: bool, dirty2: bool, calls: seq<FnId>)
    requires k <= 2
    ensures Inv(W(Before(first, k), dirty1, dirty2, calls))
  {
    if first {
      EmptyEngConsistent(StackBelow(k));
    } else if k == 0 {
      EngConsistent([0], [D], [], [], [2, 1]);
    } else if k == 1 {
      EngConsistent([0, 1], [D], [D], [], [2]);
    } else {
      EngConsistent([0, 1, 2], [D], [D], [D], []);
    }
    WInv(Before(first, k), dirty1, dirty2, calls);
  }

  /** Getter 1 reads 'foo' with runner 0 on top of the stack. */
  lemma TrackFoo(tm: TargetMap)
    requires tm == map[] || tm == TM([])
    ensures Track(Eng(tm, [], [], [], [2, 1, 0]), Target, Get, Foo).engine == Eng(TM([0]), [D], [], [], [2, 1, 0])
  {
    var eng := Eng(tm, [], [], [], [2, 1, 0]);
    var d := DepRef(Target, TrackKey(Get, Foo));
    assert d == D;
    EnsureFoo(tm);
    AddToFoo([], 0);
    assert [] + [0] == [0];
    var eff := eng.effects[0];
    var effects' := eng.effects[0 := eff.(deps := eff.deps + [D])];
    assert eff.deps + [D] == [D];
    SetDeps0([], [], [], [D]);
  }

  /** `dep.add(e)` on (value, 'foo'). */
  lemma AddToFoo(dep: seq<EffectId>, e: EffectId)
    requires e !in dep
    ensures AddSubscriber(TM(dep), D, e) == TM(dep + [e])
  {
    EnsureFoo2(dep);
    var dm := TM(dep)[Target];
    assert Insert(dm.deps[Foo], e) == dep + [e];
    assert dm.deps[Foo := dep + [e]] == map[Foo := dep + [e]];
    assert dm.(deps := map[Foo := dep + [e]]) == TM(dep + [e])[Target];
    assert TM(dep)[Target := TM(dep + [e])[Target]] == TM(dep + [e]);
  }

  lemma EnsureFoo2(dep: seq<EffectId>)
    ensures EnsureDep(TM(dep), D) == TM(dep)
  {
  }

  /** The get-or-create steps of `track` for (value, 'foo'). */
  lemma EnsureFoo(tm: TargetMap)
    requires tm == map[] || tm == TM([])
    ensures EnsureDep(tm, D) == TM([])
  {
    if tm == map[] {
      var tm1 := EnsureTarget(tm, Target);
      assert tm1 == map[Target := EmptyDepsMap];
      var dm := tm1[Target];
      assert Foo !in dm.deps;
      var dm' := KeyToDepMap(dm.keys + [Foo], dm.deps[Foo := []]);
      assert dm.keys + [Foo] == [Foo];
      assert dm.deps[Foo := []] == map[Foo := []];
      assert dm' == KeyToDepMap([Foo], map[Foo := []]);
      assert tm1[Target := dm'] == TM([]);
    }
  }

  /** Removing the last member of a set. */
  lemma {:induction false} RemoveLast(dep: seq<EffectId>, e: EffectId)
    requires e !in dep
    ensures Remove(dep + [e], e) == dep
    decreases |dep|
  {
    if |dep| > 0 {
      assert (dep + [e])[1..] == dep[1..] + [e];
      RemoveLast(dep[1..], e);
      assert [dep[0]] + dep[1..] == dep;
    }
  }

  /** `cleanup` of an effect that is the last subscriber of 'foo'. */
  lemma RemoveFromFoo(dep: seq<EffectId>, e: EffectId)
    requires e !in dep
    ensures RemoveFromDeps(TM(dep + [e]), [D], e) == TM(dep)
  {
    RemoveLast(dep, e);
    var tm1 := RemoveSubscriber(TM(dep + [e]), D, e);
    assert tm1 == TM(dep) by {
      var dm := TM(dep + [e])[Target];
      assert dm.deps[Foo := dep] == map[Foo := dep];
    }
    assert [D][1..] == [];
  }

  /** The invariant on the scenario's states with (value, 'foo') present. */
  lemma InvAt(dep: seq<EffectId>, d0: seq<DepRef>, d1: seq<DepRef>, d2: seq<DepRef>, stack: seq<EffectId>,
              dirty1: bool, dirty2: bool, calls: seq<FnId>)
    requires Listed(d0) && Listed(d1) && Listed(d2) && NoDup(dep)
    requires forall e :: e in dep <==> (e == 0 && d0 == [D]) || (e == 1 && d1 == [D]) || (e == 2 && d2 == [D])
    requires forall i :: 0 <= i < |stack| ==> stack[i] <= 2
    ensures Inv(W(Eng(TM(dep), d0, d1, d2, stack), dirty1, dirty2, calls))
  {
    EngConsistent(dep, d0, d1, d2, stack);
    WInv(Eng(TM(dep), d0, d1, d2, stack), dirty1, dirty2, calls);
  }

  lemma InvEmpty(stack: seq<EffectId>, dirty1: bool, dirty2: bool, calls: seq<FnId>)
    requires forall i :: 0 <= i < |stack| ==> stack[i] <= 2
    ensures Inv(W(Eng(map[], [], [], [], stack), dirty1, dirty2, calls))
  {
    EmptyEngConsistent(stack);
    WInv(Eng(map[], [], [], [], stack), dirty1, dirty2, calls);
  }

  // ---------------------------------------------------------------------
  // Unfolding the interpreter one definition at a time

  lemma RunUnfold(w: World, e: EffectId, fuel: nat, pushed: Engine, x: Ran)
    requires Inv(w) && e in w.engine.effects
    requires RunEnter(w.engine, e) == Entered(pushed)
    requires Inv(w.(calls := w.calls + [w.engine.effects[e].raw], engine := pushed))
    requires Exec(w.(calls := w.calls + [w.engine.effects[e].raw], engine := pushed),
                  Body(w, w.engine.effects[e].raw), fuel) == x
    ensures Run(w, e, fuel) == Ran(x.world.(engine := RunExit(x.world.engine)), x.outcome)
  {
  }

  lemma ExecOne(w: World, a: Action, fuel: nat, x: Ran)
    requires Inv(w) && Step(w, a, fuel) == x && x.outcome == Normal
    ensures Exec(w, [a], fuel) == x
  {
    assert [a][1..] == [];
  }

  lemma StepTouch(w: World, t: Oid, op: OperationType, key: Value, eng: Engine)
    requires Inv(w) && Track(w.engine, t, op, key).engine == eng
    ensures Step(w, Touch(t, op, key), 0) == Ran(w.(engine := eng), Normal)
  {
  }

  /** Cleaning up and pushing runner 0. */
  lemma EnterRunner0(first: bool)
    ensures RunEnter(Before(first, 0), 0)
            == Entered(Eng(Cleared(first), [], [], [], [2, 1, 0]))
  {
    if first {
      EnterFirst0();
    } else {
      EnterAgain0();
    }
  }

  lemma EnterFirst0()
    ensures RunEnter(Eng(map[], [], [], [], [2, 1]), 0) == Entered(Eng(map[], [], [], [], [2, 1, 0]))
  {
    var eng := Eng(map[], [], [], [], [2, 1]);
    assert RemoveFromDeps(map[], [], 0) == map[];
    SetDeps0([], [], [], []);
    assert Cleanup(eng, 0) == eng;
  }

  lemma EnterAgain0()
    ensures RunEnter(Eng(TM([0]), [D], [], [], [2, 1]), 0) == Entered(Eng(TM([]), [], [], [], [2, 1, 0]))
  {
    var eng := Eng(TM([0]), [D], [], [], [2, 1]);
    RemoveFromFoo([], 0);
    assert [] + [0] == [0];
    SetDeps0([D], [], [], []);
    assert Cleanup(eng, 0) == Eng(TM([]), [], [], [], [2, 1]);
  }

  /** Getter 1's body with runner 0 on top of the stack. */
  lemma Getter1Body(tm: TargetMap, calls: seq<FnId>)
    requires tm == map[] || tm == TM([])
    ensures Inv(W(Eng(tm, [], [], [], [2, 1, 0]), true, true, calls))
    ensures Exec(W(Eng(tm, [], [], [], [2, 1, 0]), true, true, calls), [Touch(Target, Get, Foo)], 0)
            == Ran(W(Eng(TM([0]), [D], [], [], [2, 1, 0]), true, true, calls), Normal)
  {
    var w2 := W(Eng(tm, [], [], [], [2, 1, 0]), true, true, calls);
    if tm == map[] {
      InvEmpty([2, 1, 0], true, true, calls);
    } else {
      InvAt([], [], [], [], [2, 1, 0], true, true, calls);
    }
    TrackFoo(tm);
    var w4 := W(Eng(TM([0]), [D], [], [], [2, 1, 0]), true, true, calls);
    assert w4 == w2.(engine := w4.engine);
    StepTouch(w2, Target, Get, Foo, w4.engine);
    ExecOne(w2, Touch(Target, Get, Foo), 0, Ran(w4, Normal));
  }

  /** Runner 0 (getter 1) runs: it is cleaned up, pushed, reads 'foo'
      and is popped, subscribed to 'foo' alone. */
  lemma RunRunner0(first: bool, calls: seq<FnId>)
    ensures Inv(W(Before(first, 0), true, true, calls))
    ensures Run(W(Before(first, 0), true, true, calls), 0, 0)
            == Ran(W(Eng(TM([0]), [D], [], [], [2, 1]), true, true, calls + [Getter1]), Normal)
  {
    var tm' := Cleared(first);
    Runner0Enters(first, calls);
    Runner0Body(first, calls);
    Runner0Glue(first, calls);
    RunUnfold(W(Before(first, 0), true, true, calls), 0, 0, Eng(tm', [], [], [], [2, 1, 0]),
              Ran(W(Eng(TM([0]), [D], [], [], [2, 1, 0]), true, true, calls + [Getter1]), Normal));
  }

  lemma Runner0Enters(first: bool, calls: seq<FnId>)
    ensures var w := W(Before(first, 0), true, true, calls);
      && Inv(w)
      && RunEnter(w.engine, 0) == Entered(Eng(Cleared(first), [], [], [], [2, 1, 0]))
      && w.engine.effects[0].raw == Getter1
  {
    BeforeInv(first, 0, true, true, calls);
    EnterRunner0(first);
  }

  lemma Runner0Body(first: bool, calls: seq<FnId>)
    ensures var w2 := W(Eng(Cleared(first), [], [], [], [2, 1, 0]), true, true, calls + [Getter1]);
      && Inv(w2)
      && Exec(w2, [Touch(Target, Get, Foo)], 0) == Ran(W(Eng(TM([0]), [D], [], [], [2, 1, 0]), true, true, calls + [Getter1]), Normal)
  {
    if first {
      Getter1Body(map[], calls + [Getter1]);
    } else {
      Getter1Body(TM([]), calls + [Getter1]);
    }
  }

  lemma Runner0Glue(first: bool, calls: seq<FnId>)
    ensures var w2 := W(Eng(Cleared(first), [], [], [], [2, 1, 0]), true, true, calls + [Getter1]);
      var w4 := W(Eng(TM([0]), [D], [], [], [2, 1, 0]), true, true, calls + [Getter1]);
      && W(Before(first, 0), true, true, calls).(calls := calls + [Getter1], engine := w2.engine) == w2
      && Body(W(Before(first, 0), true, true, calls), Getter1) == [Touch(Target, Get, Foo)]
      && w4.(engine := RunExit(w4.engine)) == W(Eng(TM([0]), [D], [], [], [2, 1]), true, true, calls + [Getter1])
  {
    BodyOf(Before(first, 0), true, true, calls, Getter1);
    Pop(TM([0]), [D], [], [], [2, 1], 0, true, true, calls + [Getter1]);
  }

  lemma BodyOf(eng: Engine, dirty1: bool, dirty2: bool, calls: seq<FnId>, fn: FnId)
    requires fn in Bodies
    ensures Body(W(eng, dirty1, dirty2, calls), fn) == Bodies[fn]
  {
  }

  /** The `finally` of a run pops `k`. */
  lemma Pop(tm: TargetMap, d0: seq<DepRef>, d1: seq<DepRef>, d2: seq<DepRef>, stack: seq<EffectId>, k: EffectId,
            dirty1: bool, dirty2: bool, calls: seq<FnId>)
    ensures var w := W(Eng(tm, d0, d1, d2, stack + [k]), dirty1, dirty2, calls);
      w.(engine := RunExit(w.engine)) == W(Eng(tm, d0, d1, d2, stack), dirty1, dirty2, calls)
  {
    assert (stack + [k])[..|stack|] == stack;
  }

  lemma StepRead(w: World, c: Oid, fuel: nat)
    requires Inv(w) && c in w.computeds
    ensures Step(w, ReadComputed(c), fuel) == ReadComputedValue(w, c, fuel)
  {
  }

  lemma ReadDirtyUnfold(w: World, c: Oid, fuel: nat, x: Ran)
    requires Inv(w) && c in w.computeds && w.computeds[c].dirty && fuel > 0
    requires Run(w, w.computeds[c].runner, fuel - 1) == x && x.outcome == Normal
    ensures ReadComputedValue(w, c, fuel) == Ran(ChildRun(Cleaned(x.world, c), w.computeds[c].runner), Normal)
  {
  }

  /** `dirty = false` on `c1`, then on `c2`. */
  lemma Clean1(eng: Engine, dirty2: bool, calls: seq<FnId>)
    ensures Cleaned(W(eng, true, dirty2, calls), C1) == W(eng, false, dirty2, calls)
  {
    assert Comps(true, dirty2)[C1 := Comps(true, dirty2)[C1].(dirty := false)] == Comps(false, dirty2);
  }

  lemma Clean2(eng: Engine, calls: seq<FnId>)
    ensures Cleaned(W(eng, false, true, calls), C2) == W(eng, false, false, calls)
  {
    assert Comps(false, true)[C2 := Comps(false, true)[C2].(dirty := false)] == Comps(false, false);
  }

  /** `trackChildRun` of runner 0 inside runner 1. */
  lemma ChildRun01(calls: seq<FnId>)
    ensures ChildRun(W(Eng(TM([0]), [D], [], [], [2, 1]), false, true, calls), 0)
            == W(Eng(TM([0, 1]), [D], [D], [], [2, 1]), false, true, calls)
  {
    var eng := Eng(TM([0]), [D], [], [], [2, 1]);
    AddToFoo([0], 1);
    assert [0] + [1] == [0, 1];
    var eff := eng.effects[1];
    assert eff.deps + [D] == [D];
    SetDeps1([D], [], [], [D]);
    assert AddParentTo(eng, 1, D) == Eng(TM([0, 1]), [D], [D], [], [2, 1]);
    assert AddParent(eng, 1, [D]) == AddParent(AddParentTo(eng, 1, D), 1, []);
  }

  /** `trackChildRun` of runner 1 inside effect 2. */
  lemma ChildRun12(calls: seq<FnId>)
    ensures ChildRun(W(Eng(TM([0, 1]), [D], [D], [], [2]), false, false, calls), 1)
            == W(Eng(TM([0, 1, 2]), [D], [D], [D], [2]), false, false, calls)
  {
    var eng := Eng(TM([0, 1]), [D], [D], [], [2]);
    AddToFoo([0, 1], 2);
    assert [0, 1] + [2] == [0, 1, 2];
    var eff := eng.effects[2];
    assert eff.deps + [D] == [D];
    SetDeps2([D], [D], [], [D]);
    assert AddParentTo(eng, 2, D) == Eng(TM([0, 1, 2]), [D], [D], [D], [2]);
    assert AddParent(eng, 2, [D]) == AddParent(AddParentTo(eng, 2, D), 2, []);
  }

  /** Cleaning up runner 1 and pushing it gives the state runner 0 starts
      from. */
  lemma EnterRunner1(first: bool)
    ensures RunEnter(Before(first, 1), 1) == Entered(Before(first, 0))
  {
    if !first {
      var eng := Before(false, 1);
      RemoveFromFoo([0], 1);
      assert [0] + [1] == [0, 1];
      SetDeps1([D], [D], [], []);
      assert Cleanup(eng, 1) == Eng(TM([0]), [D], [], [], [2]);
    } else {
      var eng := Before(true, 1);
      SetDeps1([], [], [], []);
      assert Cleanup(eng, 1) == eng;
    }
  }

  /** Getter 2's body: reading `c1` runs runner 0 and subscribes runner 1
      to what runner 0 read. */
  lemma Runner1Body(first: bool, calls: seq<FnId>)
    ensures var w2 := W(Before(first, 0), true, true, calls);
      && Inv(w2)
      && Exec(w2, [ReadComputed(C1)], 1)
         == Ran(W(Eng(TM([0, 1]), [D], [D], [], [2, 1]), false, true, calls + [Getter1]), Normal)
  {
    var w2 := W(Before(first, 0), true, true, calls);
    var a0 := W(Eng(TM([0]), [D], [], [], [2, 1]), true, true, calls + [Getter1]);
    RunRunner0(first, calls);
    assert Inv(w2) && ReadComputedValue(w2, C1, 1) == Ran(ChildRun(Cleaned(a0, C1), 0), Normal) by {
      ReadDirtyUnfold(w2, C1, 1, Ran(a0, Normal));
    }
    Clean1(a0.engine, true, calls + [Getter1]);
    ChildRun01(calls + [Getter1]);
    StepRead(w2, C1, 1);
    ExecOne(w2, ReadComputed(C1), 1, Ran(W(Eng(TM([0, 1]), [D], [D], [], [2, 1]), false, true, calls + [Getter1]), Normal));
  }

  lemma Runner1Glue(first: bool, calls: seq<FnId>)
    ensures var w4 := W(Eng(TM([0, 1]), [D], [D], [], [2, 1]), false, true, calls + [Getter2] + [Getter1]);
      && W(Before(first, 1), true, true, calls).(calls := calls + [Getter2], engine := Before(first, 0))
         == W(Before(first, 0), true, true, calls + [Getter2])
      && Body(W(Before(first, 1), true, true, calls), Getter2) == [ReadComputed(C1)]
      && w4.(engine := RunExit(w4.engine)) == W(Eng(TM([0, 1]), [D], [D], [], [2]), false, true, calls + [Getter2, Getter1])
  {
    BodyOf(Before(first, 1), true, true, calls, Getter2);
    assert calls + [Getter2] + [Getter1] == calls + [Getter2, Getter1];
    Pop(TM([0, 1]), [D], [D], [], [2], 1, false, true, calls + [Getter2, Getter1]);
  }

  /** Runner 1 (getter 2) runs: it reads `c1`, so runner 0 runs inside
      it; both end subscribed to 'foo'. */
  lemma RunRunner1(first: bool, calls: seq<FnId>)
    ensures Inv(W(Before(first, 1), true, true, calls))
    ensures Run(W(Before(first, 1), true, true, calls), 1, 1)
            == Ran(W(Eng(TM([0, 1]), [D], [D], [], [2]), false, true, calls + [Getter2, Getter1]), Normal)
  {
    BeforeInv(first, 1, true, true, calls);
    EnterRunner1(first);
    Runner1Body(first, calls + [Getter2]);
    Runner1Glue(first, calls);
    RunUnfold(W(Before(first, 1), true, true, calls), 1, 1, Before(first, 0),
              Ran(W(Eng(TM([0, 1]), [D], [D], [], [2, 1]), false, true, calls + [Getter2] + [Getter1]), Normal));
  }

  /** Cleaning up effect 2 and pushing it gives the state runner 1 starts
      from. */
  lemma EnterEffect2(first: bool)
    ensures RunEnter(Before(first, 2), 2) == Entered(Before(first, 1))
  {
    if !first {
      var eng := Before(false, 2);
      RemoveFromFoo([0, 1], 2);
      assert [0, 1] + [2] == [0, 1, 2];
      SetDeps2([D], [D], [D], []);
      assert Cleanup(eng, 2) == Eng(TM([0, 1]), [D], [D], [], []);
    } else {
      var eng := Before(true, 2);
      SetDeps2([], [], [], []);
      assert Cleanup(eng, 2) == eng;
    }
  }

  /** The effect reads `c2`: runner 1 runs, which runs runner 0. */
  lemma Effect2Read(first: bool, calls: seq<FnId>, fuel: nat)
    requires fuel == 2
    ensures var w2 := W(Before(first, 1), true, true, calls);
      && Inv(w2)
      && ReadComputedValue(w2, C2, fuel)
         == Ran(W(Eng(TM([0, 1, 2]), [D], [D], [D], [2]), false, false, calls + [Getter2, Getter1]), Normal)
  {
    var w2 := W(Before(first, 1), true, true, calls);
    var a1 := W(Eng(TM([0, 1]), [D], [D], [], [2]), false, true, calls + [Getter2, Getter1]);
    assert Inv(w2) && Run(w2, 1, fuel - 1) == Ran(a1, Normal) by {
      RunRunner1(first, calls);
    }
    assert ChildRun(Cleaned(a1, C2), 1) == W(Eng(TM([0, 1, 2]), [D], [D], [D], [2]), false, false, calls + [Getter2, Getter1]) by {
      AfterRead2(calls + [Getter2, Getter1]);
    }
    assert w2.computeds[C2].dirty && w2.computeds[C2].runner == 1;
    ReadDirtyUnfold(w2, C2, fuel, Ran(a1, Normal));
  }

  /** Marking `c2` clean, then subscribing the effect to what runner 1 read. */
  lemma AfterRead2(calls: seq<FnId>)
    ensures var a1 := W(Eng(TM([0, 1]), [D], [D], [], [2]), false, true, calls);
      && Cleaned(a1, C2) == W(a1.engine, false, false, calls)
      && ChildRun(Cleaned(a1, C2), 1) == W(Eng(TM([0, 1, 2]), [D], [D], [D], [2]), false, false, calls)
  {
    Clean2(Eng(TM([0, 1]), [D], [D], [], [2]), calls);
    ChildRun12(calls);
  }

  lemma Effect2Body(first: bool, calls: seq<FnId>)
    ensures var w2 := W(Before(first, 1), true, true, calls);
      && Inv(w2)
      && Exec(w2, [ReadComputed(C2)], 2)
         == Ran(W(Eng(TM([0, 1, 2]), [D], [D], [D], [2]), false, false, calls + [Getter2, Getter1]), Normal)
  {
    var w2 := W(Before(first, 1), true, true, calls);
    Effect2Read(first, calls, 2);
    StepRead(w2, C2, 2);
    ExecOne(w2, ReadComputed(C2), 2,
            Ran(W(Eng(TM([0, 1, 2]), [D], [D], [D], [2]), false, false, calls + [Getter2, Getter1]), Normal));
  }

  lemma Effect2Glue(first: bool, calls: seq<FnId>)
    ensures var w4 := W(Eng(TM([0, 1, 2]), [D], [D], [D], [2]), false, false, calls + [EffectFn] + [Getter2, Getter1]);
      && W(Before(first, 2), true, true, calls).(calls := calls + [EffectFn], engine := Before(first, 1))
         == W(Before(first, 1), true, true, calls + [EffectFn])
      && Body(W(Before(first, 2), true, true, calls), EffectFn) == [ReadComputed(C2)]
      && w4.(engine := RunExit(w4.engine)) == Settled(calls + [EffectFn, Getter2, Getter1])
  {
    BodyOf(Before(first, 2), true, true, calls, EffectFn);
    assert calls + [EffectFn] + [Getter2, Getter1] == calls + [EffectFn, Getter2, Getter1];
    Pop(TM([0, 1, 2]), [D], [D], [D], [], 2, false, false, calls + [EffectFn, Getter2, Getter1]);
  }

  /** The effect runs: it reads `c2`, which reads `c1`, which reads
      'foo'. Each raw function is called once, outermost first, and the
      engine settles with all three subscribed to 'foo'. */
  lemma RunEffect2(first: bool, calls: seq<FnId>)
    ensures Inv(W(Before(first, 2), true, true, calls))
    ensures Run(W(Before(first, 2), true, true, calls), 2, 2)
            == Ran(Settled(calls + [EffectFn, Getter2, Getter1]), Normal)
  {
    BeforeInv(first, 2, true, true, calls);
    EnterEffect2(first);
    Effect2Body(first, calls + [EffectFn]);
    Effect2Glue(first, calls);
    RunUnfold(W(Before(first, 2), true, true, calls), 2, 2, Before(first, 1),
              Ran(W(Eng(TM([0, 1, 2]), [D], [D], [D], [2]), false, false, calls + [EffectFn] + [Getter2, Getter1]), Normal));
  }

  // ---------------------------------------------------------------------
  // A write of 'foo' once settled

  /** What `trigger` hands to `scheduleRun` when 'foo' is written: both
      computed schedulers (in subscription order), then the effect. */
  function Chain(): seq<Notification> {
    [Notification(0, ToScheduler(MarkDirty(C1)), false),
     Notification(1, ToScheduler(MarkDirty(C2)), false),
     Notification(2, RunDirectly, false)]
  }

  lemma CollectFoo()
    ensures Before(false, 2).SubscribersKnown(Target)
    ensures CollectRunners(Before(false, 2), Target, Set, Foo, false) == Runners([0, 1], [2])
  {
    var eng := Before(false, 2);
    FooKnown();
    CollectUnfold(eng, Target, Set, Foo, false);
    SortFoo(eng);
  }

  lemma FooKnown()
    ensures Before(false, 2).SubscribersKnown(Target)
    ensures Target in Before(false, 2).targetMap
    ensures Before(false, 2).targetMap[Target].Lookup(Foo) == [0, 1, 2]
  {
    var eng := Before(false, 2);
    forall k, e | e in Subscribers(eng.targetMap, DepRef(Target, k)) ensures e in eng.effects {
      assert k == Foo;
    }
  }

  /** `trigger` for a SET of a given key collects just that key's dep. */
  lemma CollectUnfold(eng: Engine, target: Oid, op: OperationType, key: Value, isArray: bool)
    requires eng.SubscribersKnown(target) && target in eng.targetMap
    requires !op.Clear? && !op.ChangesKeySet() && key != Undefined
    ensures forall e :: e in eng.targetMap[target].Lookup(key) ==> e in eng.effects
    ensures CollectRunners(eng, target, op, key, isArray) == AddRunners(eng, NoRunners, eng.targetMap[target].Lookup(key))
  {
    assert forall e :: e in eng.targetMap[target].Lookup(key) ==> e in Subscribers(eng.targetMap, DepRef(target, key));
  }

  /** `addRunners` over (value, 'foo'): runners 0 and 1 are computed,
      effect 2 is not. */
  lemma SortFoo(eng: Engine)
    requires eng.effects.Keys == {0, 1, 2}
    requires eng.effects[0].computed && eng.effects[1].computed && !eng.effects[2].computed
    ensures AddRunners(eng, NoRunners, [0, 1, 2]) == Runners([0, 1], [2])
  {
    var dep := [0, 1, 2];
    AddRunnersStep(eng, NoRunners, dep, Runners([0], []));
    assert dep[1..] == [1, 2];
    AddRunnersStep(eng, Runners([0], []), [1, 2], Runners([0, 1], []));
    assert [1, 2][1..] == [2];
    AddRunnersStep(eng, Runners([0, 1], []), [2], Runners([0, 1], [2]));
    assert [2][1..] == [];
  }

  lemma AddRunnersStep(eng: Engine, rs: Runners, dep: Dep, rs': Runners)
    requires forall e :: e in dep ==> e in eng.effects
    requires Partitioned(eng, rs) && |dep| > 0
    requires rs' == if eng.effects[dep[0]].computed
                    then rs.(computedRunners := Insert(rs.computedRunners, dep[0]))
                    else rs.(plain := Insert(rs.plain, dep[0]))
    ensures Partitioned(eng, rs')
    ensures AddRunners(eng, rs, dep) == AddRunners(eng, rs', dep[1..])
  {
  }

  lemma TriggerFoo()
    ensures Before(false, 2).SubscribersKnown(Target)
    ensures Trigger(Before(false, 2), Target, Set, Foo, false) == Chain()
  {
    var eng := Before(false, 2);
    CollectFoo();
    assert [0, 1] + [2] == [0, 1, 2];
    var ns := Deliveries(eng, [0, 1, 2]);
    assert ns[0] == Chain()[0] && ns[1] == Chain()[1] && ns[2] == Chain()[2];
  }

  lemma DeliverCons(w: World, ns: seq<Notification>, fuel: nat, x: Ran)
    requires Inv(w) && Deliverable(w, ns) && |ns| > 0
    requires Notify(w, ns[0], fuel) == x && x.outcome == Normal
    ensures Inv(x.world) && Deliverable(x.world, ns[1..])
    ensures Deliver(w, ns, fuel) == Deliver(x.world, ns[1..], fuel)
  {
  }

  lemma DeliverOne(w: World, n: Notification, fuel: nat, x: Ran)
    requires Inv(w) && n.effect in w.engine.effects && n.delivery != ToScheduler(NoScheduler)
    requires Notify(w, n, fuel) == x && x.outcome == Normal
    ensures Deliverable(w, [n])
    ensures Deliver(w, [n], fuel) == x
  {
    assert [n][1..] == [];
  }

  lemma NotifyEffect(calls: seq<FnId>, fuel: nat)
    requires fuel == 2
    ensures Inv(W(Before(false, 2), true, true, calls))
    ensures Notify(W(Before(false, 2), true, true, calls), Chain()[2], fuel)
            == Ran(Settled(calls + [EffectFn, Getter2, Getter1]), Normal)
  {
    RunEffect2(false, calls);
  }

  /** Writing 'foo' once everything has settled: both computed values are
      marked dirty, the effect re-runs and re-reads them, so the effect,
      getter 2 and getter 1 are each called exactly once, in that order,
      and the engine returns to the settled state. */
  lemma WriteSettles(calls: seq<FnId>)
    ensures Inv(Settled(calls))
    ensures Write(Settled(calls), Target, Set, Foo, false, 2)
            == Ran(Settled(calls + [EffectFn, Getter2, Getter1]), Normal)
  {
    WriteChain(calls, 2);
    DeliverChain(calls, 2, Chain());
  }

  lemma WriteChain(calls: seq<FnId>, fuel: nat)
    ensures Inv(Settled(calls)) && Deliverable(Settled(calls), Chain())
    ensures Write(Settled(calls), Target, Set, Foo, false, fuel) == Deliver(Settled(calls), Chain(), fuel)
  {
    TriggerFoo();
    BeforeInv(false, 2, false, false, calls);
  }

  lemma DeliverChain(calls: seq<FnId>, fuel: nat, ns: seq<Notification>)
    requires fuel == 2 && ns == Chain()
    ensures Inv(Settled(calls)) && Deliverable(Settled(calls), ns)
    ensures Deliver(Settled(calls), ns, fuel) == Ran(Settled(calls + [EffectFn, Getter2, Getter1]), Normal)
  {
    MarkFirst(calls, fuel, ns);
    MarkSecondThenRun(calls, fuel, ns[1..]);
  }

  /** The computed schedulers mark `c1`, then `c2`, dirty; no raw function
      is called. */
  lemma MarkFirst(calls: seq<FnId>, fuel: nat, ns: seq<Notification>)
    requires ns == Chain()
    ensures Inv(Settled(calls)) && Deliverable(Settled(calls), ns)
    ensures Inv(W(Before(false, 2), true, false, calls)) && Deliverable(W(Before(false, 2), true, false, calls), ns[1..])
    ensures Deliver(Settled(calls), ns, fuel) == Deliver(W(Before(false, 2), true, false, calls), ns[1..], fuel)
  {
    BeforeInv(false, 2, false, false, calls);
    MarkStep(Settled(calls), ns, fuel, C1);
    MarkedC1(calls);
  }

  /** `c2` is marked dirty, then the effect runs. */
  lemma MarkSecondThenRun(calls: seq<FnId>, fuel: nat, ns: seq<Notification>)
    requires fuel == 2 && ns == Chain()[1..]
    requires Inv(W(Before(false, 2), true, false, calls)) && Deliverable(W(Before(false, 2), true, false, calls), ns)
    ensures Deliver(W(Before(false, 2), true, false, calls), ns, fuel)
            == Ran(Settled(calls + [EffectFn, Getter2, Getter1]), Normal)
  {
    MarkSecond(calls, fuel, ns);
    RunLast(calls, fuel, ns[1..]);
  }

  lemma MarkSecond(calls: seq<FnId>, fuel: nat, ns: seq<Notification>)
    requires ns == Chain()[1..]
    requires Inv(W(Before(false, 2), true, false, calls)) && Deliverable(W(Before(false, 2), true, false, calls), ns)
    ensures Inv(W(Before(false, 2), true, true, calls)) && Deliverable(W(Before(false, 2), true, true, calls), ns[1..])
    ensures Deliver(W(Before(false, 2), true, false, calls), ns, fuel) == Deliver(W(Before(false, 2), true, true, calls), ns[1..], fuel)
  {
    MarkStep(W(Before(false, 2), true, false, calls), ns, fuel, C2);
    MarkedC2(calls);
  }

  lemma MarkedC1(calls: seq<FnId>)
    ensures Marked(Settled(calls), C1) == W(Before(false, 2), true, false, calls)
  {
    assert Comps(false, false)[C1 := MarkedDirty(Comps(false, false)[C1])] == Comps(true, false);
  }

  lemma MarkedC2(calls: seq<FnId>)
    ensures Marked(W(Before(false, 2), true, false, calls), C2) == W(Before(false, 2), true, true, calls)
  {
    assert Comps(true, false)[C2 := MarkedDirty(Comps(true, false)[C2])] == Comps(true, true);
  }

  /** Then the effect runs. */
  lemma RunLast(calls: seq<FnId>, fuel: nat, ns: seq<Notification>)
    requires fuel == 2 && ns == Chain()[2..]
    ensures Inv(W(Before(false, 2), true, true, calls))
    ensures Deliverable(W(Before(false, 2), true, true, calls), ns)
    ensures Deliver(W(Before(false, 2), true, true, calls), ns, fuel)
            == Ran(Settled(calls + [EffectFn, Getter2, Getter1]), Normal)
  {
    NotifyEffect(calls, fuel);
    assert ns == [Chain()[2]];
    DeliverOne(W(Before(false, 2), true, true, calls), Chain()[2], fuel,
               Ran(Settled(calls + [EffectFn, Getter2, Getter1]), Normal));
  }

  /** The computed scheduler's `dirty = true` on the world. */
  function Marked(w: World, c: Oid): World
    requires c in w.computeds
  {
    w.(computeds := w.computeds[c := MarkedDirty(w.computeds[c])])
  }

  /** A notification for the computed scheduler of `c` marks `c` dirty and
      delivery moves on. */
  lemma MarkStep(w: World, ns: seq<Notification>, fuel: nat, c: Oid)
    requires Inv(w) && Deliverable(w, ns) && |ns| > 0 && c in w.computeds
    requires ns[0].delivery == ToScheduler(MarkDirty(c))
    ensures Inv(Marked(w, c)) && Deliverable(Marked(w, c), ns[1..])
    ensures Deliver(w, ns, fuel) == Deliver(Marked(w, c), ns[1..], fuel)
  {
    DeliverCons(w, ns, fuel, Ran(Marked(w, c), Normal));
  }

  // ---------------------------------------------------------------------
  // Setting the chain up

  /** No effects, no computed refs, nothing read yet. */
  function Empty(): World {
    World(Engine(map[], map[], [], true, 0), map[], Bodies, [], [])
  }

  lemma EmptyInv()
    ensures Inv(Empty())
  {
  }

  /** `c1 = computed(getter1)` takes handle 0. */
  lemma MakeC1()
    ensures Inv(Empty())
    ensures CreateComputed(Empty(), GetterOnly(Getter1), C1)
            == World(Engine(map[], map[0 := Runner(Getter1, [], C1)], [], true, 1),
                     map[C1 := ComputedState(true, Undefined, 0, GetterOnly(Getter1))], Bodies, [], [])
  {
  }

  /** `c2 = computed(getter2)` takes handle 1. */
  lemma MakeC2(w: World)
    requires w == World(Engine(map[], map[0 := Runner(Getter1, [], C1)], [], true, 1),
                        map[C1 := ComputedState(true, Undefined, 0, GetterOnly(Getter1))], Bodies, [], [])
    ensures Inv(w) && C2 !in w.computeds
    ensures CreateComputed(w, GetterOnly(Getter2), C2)
            == World(Engine(map[], map[0 := Runner(Getter1, [], C1), 1 := Runner(Getter2, [], C2)], [], true, 2),
                     Comps(true, true), Bodies, [], [])
  {
    MakeC1();
    assert w.computeds[C2 := ComputedState(true, Undefined, 1, GetterOnly(Getter2))] == Comps(true, true);
  }

  /** `effect(fn)` takes handle 2 and runs at once. */
  lemma LaunchEffect(w: World, fuel: nat)
    requires fuel == 2
    requires w == World(Engine(map[], map[0 := Runner(Getter1, [], C1), 1 := Runner(Getter2, [], C2)], [], true, 2),
                        Comps(true, true), Bodies, [], [])
    ensures Inv(w)
    ensures CreateEffect(w, RawFunction(EffectFn), EmptyOptions, fuel)
            == Launched(Ran(Settled([EffectFn, Getter2, Getter1]), Normal), 2)
  {
    RegisterEffect(w);
    RunEffect2(true, []);
    assert [] + [EffectFn, Getter2, Getter1] == [EffectFn, Getter2, Getter1];
    CreateEffectUnfold(w, RawFunction(EffectFn), EmptyOptions, fuel,
                       Registration(Before(true, 2), 2, true), Ran(Settled([EffectFn, Getter2, Getter1]), Normal));
  }

  lemma RegisterEffect(w: World)
    requires w == World(Engine(map[], map[0 := Runner(Getter1, [], C1), 1 := Runner(Getter2, [], C2)], [], true, 2),
                        Comps(true, true), Bodies, [], [])
    ensures Inv(w)
    ensures Register(w.engine, RawFunction(EffectFn), EmptyOptions) == Registration(Before(true, 2), 2, true)
    ensures w.(engine := Before(true, 2)) == W(Before(true, 2), true, true, [])
  {
    MakeC2(World(Engine(map[], map[0 := Runner(Getter1, [], C1)], [], true, 1),
                 map[C1 := ComputedState(true, Undefined, 0, GetterOnly(Getter1))], Bodies, [], []));
  }

  lemma CreateEffectUnfold(w: World, f: Runnable, options: EffectOptions, fuel: nat, reg: Registration, x: Ran)
    requires Inv(w) && (f.EffectHandle? ==> f.handle in w.engine.effects)
    requires !options.scheduler.MarkDirty?
    requires Register(w.engine, f, options) == reg && reg.runNow
    requires Inv(w.(engine := reg.engine)) && Run(w.(engine := reg.engine), reg.handle, fuel) == x
    ensures CreateEffect(w, f, options, fuel) == Launched(x, reg.handle)
  {
  }

  /** Creating `c1`, `c2` and the effect from nothing: the effect's raw
      function, getter 2 and getter 1 are each called once, in that order,
      and the engine is left in the settled state. */
  lemma SetupSettles()
    ensures Inv(Empty())
    ensures var w1 := CreateComputed(Empty(), GetterOnly(Getter1), C1);
      && C2 !in w1.computeds
      && var w2 := CreateComputed(w1, GetterOnly(Getter2), C2);
      && !EmptyOptions.scheduler.MarkDirty?
      && CreateEffect(w2, RawFunction(EffectFn), EmptyOptions, 2)
         == Launched(Ran(Settled([EffectFn, Getter2, Getter1]), Normal), 2)
  {
    MakeC1();
    var w1 := CreateComputed(Empty(), GetterOnly(Getter1), C1);
    MakeC2(w1);
    LaunchEffect(CreateComputed(w1, GetterOnly(Getter2), C2), 2);
  }
}
