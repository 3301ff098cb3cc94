/** computed.ts: a memoised value driven by a lazy, computed-flagged effect
    (the runner) whose scheduler only marks the value dirty, and
    `trackChildRun`, which makes the effect reading the value depend on
    everything the runner depends on. */
module Computed {
  import opened Values
  import opened Store
  import opened Effect
  import opened Consistency

  /** What `computed` was given: a getter (a readonly computed) or an
      options object with `get` and `set`. */
  datatype Accessors = GetterOnly(getter: FnId) | GetterAndSetter(getter: FnId, setter: FnId)

  /** The closure state of one computed ref: `dirty`, the cached `value`,
      the runner handle and the accessors. */
  datatype ComputedState = ComputedState(dirty: bool, value: Value, runner: EffectId, accessors: Accessors)

  /** The options the runner is registered with; `ref` is the computed ref
      whose `dirty` flag the scheduler sets. */
  function RunnerOptions(ref: Oid): EffectOptions {
    EffectOptions(true, true, MarkDirty(ref), false, false, false)
  }

  datatype Made = Made(engine: Engine, state: ComputedState)

  /** `computed(getterOrOptions)`: registers the runner without running it;
      the value starts dirty. */
  function MakeComputed(eng: Engine, acc: Accessors, ref: Oid): (r: Made)
    requires eng.FreshAbove()
    ensures r.state.dirty && r.state.accessors == acc
    ensures r.state.runner !in eng.effects
    ensures r.engine.effects.Keys == eng.effects.Keys + {r.state.runner}
    ensures forall e :: e in eng.effects ==> r.engine.effects[e] == eng.effects[e]
    ensures var h := r.engine.effects[r.state.runner];
      && h.active && h.computed && h.deps == []
      && h.raw == acc.getter
      && h.scheduler == MarkDirty(ref)
    ensures r.engine.targetMap == eng.targetMap && r.engine.stack == eng.stack
    ensures var reg := Register(eng, RawFunction(acc.getter), RunnerOptions(ref));
      r.engine == reg.engine && r.state.runner == reg.handle && !reg.runNow
  {
    var reg := Register(eng, RawFunction(acc.getter), RunnerOptions(ref));
    Made(reg.engine, ComputedState(true, Undefined, reg.handle, acc))
  }

  /** Registering a computed keeps the engine invariant. */
  lemma MakeComputedKeepsConsistent(eng: Engine, acc: Accessors, ref: Oid)
    requires Consistent(eng)
    ensures Consistent(MakeComputed(eng, acc, ref).engine)
  {
    RegisterKeepsConsistent(eng, RawFunction(acc.getter), RunnerOptions(ref));
  }

  /** What the `value` getter does before tracking. */
  datatype ValueRead = RunRunner(runner: EffectId) | UseCached(value: Value)

  /** The `value` getter's first step: run the runner when dirty,
      otherwise hand out the cached value. */
  function ReadValue(st: ComputedState): (r: ValueRead)
    ensures r.RunRunner? <==> st.dirty
    ensures r.RunRunner? ==> r.runner == st.runner
    ensures r.UseCached? ==> r.value == st.value
  {
    if st.dirty then RunRunner(st.runner) else UseCached(st.value)
  }

  /** After the runner returned `v`: cached and clean. */
  function Refresh(st: ComputedState, v: Value): (r: ComputedState)
    ensures !r.dirty && r.value == v
    ensures r.runner == st.runner && r.accessors == st.accessors
  {
    st.(dirty := false, value := v)
  }

  /** The runner's scheduler: `dirty = true`, nothing else. */
  function MarkedDirty(st: ComputedState): (r: ComputedState)
    ensures r.dirty
    ensures r.value == st.value && r.runner == st.runner && r.accessors == st.accessors
  {
    st.(dirty := true)
  }

  /** Memoisation: once refreshed, reads use the cached value until the
      scheduler marks it dirty; then the next read runs the runner again. */
  lemma CachedUntilDirty(st: ComputedState, v: Value)
    ensures ReadValue(Refresh(st, v)) == UseCached(v)
    ensures ReadValue(Refresh(Refresh(st, v), v)) == ReadValue(Refresh(st, v))
    ensures ReadValue(MarkedDirty(Refresh(st, v))) == RunRunner(st.runner)
    ensures ReadValue(st) == RunRunner(st.runner) <==> st.dirty
  {
  }

  /** What writing `value` does. */
  datatype SetterCall = WarnReadonly | CallSetter(setter: FnId, value: Value)

  /** The `value` setter: a getter-only computed warns (the development
      build's setter), otherwise the given `set` is called. */
  function WriteValue(st: ComputedState, v: Value): (r: (ComputedState, SetterCall))
    ensures r.0 == st
    ensures r.1.WarnReadonly? <==> st.accessors.GetterOnly?
    ensures st.accessors.GetterAndSetter? ==> r.1 == CallSetter(st.accessors.setter, v)
  {
    match st.accessors
    case GetterOnly(_) => (st, WarnReadonly)
    case GetterAndSetter(_, setter) => (st, CallSetter(setter, v))
  }

  // ---------------------------------------------------------------------
  // trackChildRun

  /** One iteration of the loop: `if (!dep.has(parent)) { dep.add(parent);
      parent.deps.push(dep) }`. */
  function AddParentTo(eng: Engine, parent: EffectId, d: DepRef): (r: Engine)
    requires parent in eng.effects
    ensures parent in r.effects && parent in Subscribers(r.targetMap, d)
    ensures r.effects.Keys == eng.effects.Keys
    ensures forall x :: x in eng.effects && x != parent ==> r.effects[x] == eng.effects[x]
    ensures r.effects[parent] == eng.effects[parent].(deps := r.effects[parent].deps)
    ensures parent in Subscribers(eng.targetMap, d) ==> r == eng
    ensures parent !in Subscribers(eng.targetMap, d) ==>
              && r.effects[parent].deps == eng.effects[parent].deps + [d]
              && Subscribers(r.targetMap, d) == Subscribers(eng.targetMap, d) + [parent]
    ensures forall d' :: d' != d ==> Subscribers(r.targetMap, d') == Subscribers(eng.targetMap, d')
    ensures r.stack == eng.stack && r.shouldTrack == eng.shouldTrack && r.nextEffect == eng.nextEffect
    ensures ValidTargetMap(eng.targetMap) ==> ValidTargetMap(r.targetMap)
  {
    if parent in Subscribers(eng.targetMap, d) then eng
    else
      var eff := eng.effects[parent];
      eng.(targetMap := AddSubscriber(eng.targetMap, d, parent),
           effects := eng.effects[parent := eff.(deps := eff.deps + [d])])
  }

  /** The loop over the child's `deps`, in order. */
  function AddParent(eng: Engine, parent: EffectId, deps: seq<DepRef>): (r: Engine)
    requires parent in eng.effects
    ensures parent in r.effects
    ensures r.effects.Keys == eng.effects.Keys
    ensures forall x :: x in eng.effects && x != parent ==> r.effects[x] == eng.effects[x]
    ensures r.effects[parent] == eng.effects[parent].(deps := r.effects[parent].deps)
    ensures forall d, x :: x in Subscribers(r.targetMap, d) <==>
              x in Subscribers(eng.targetMap, d) || (x == parent && d in deps)
    ensures r.stack == eng.stack && r.shouldTrack == eng.shouldTrack && r.nextEffect == eng.nextEffect
    ensures ValidTargetMap(eng.targetMap) ==> ValidTargetMap(r.targetMap)
    decreases |deps|
  {
    if |deps| == 0 then eng
    else
      var step := AddParentTo(eng, parent, deps[0]);
      assert forall x :: x in Subscribers(step.targetMap, deps[0]) <==>
                         x in Subscribers(eng.targetMap, deps[0]) || x == parent;
      var r := AddParent(step, parent, deps[1..]);
      assert forall d :: d in deps <==> d == deps[0] || d in deps[1..];
      r
  }

  /** `trackChildRun(childRunner)`: when an effect is running, it is added
      to every dep of the child. Note that `shouldTrack` is not consulted. */
  function TrackChildRun(eng: Engine, child: EffectId): (r: Engine)
    requires child in eng.effects && eng.StackKnown()
    ensures r.effects.Keys == eng.effects.Keys
    ensures |eng.stack| == 0 ==> r == eng
    ensures |eng.stack| > 0 ==>
      var parent := eng.stack[|eng.stack| - 1];
      && (forall d :: d in eng.effects[child].deps ==> parent in Subscribers(r.targetMap, d))
      && (forall d, x :: x in Subscribers(r.targetMap, d) <==>
            x in Subscribers(eng.targetMap, d) || (x == parent && d in eng.effects[child].deps))
      && (forall x :: x in eng.effects && x != parent ==> r.effects[x] == eng.effects[x])
    ensures forall x :: x in eng.effects ==> r.effects[x] == eng.effects[x].(deps := r.effects[x].deps)
    ensures r.stack == eng.stack && r.shouldTrack == eng.shouldTrack && r.nextEffect == eng.nextEffect
    ensures ValidTargetMap(eng.targetMap) ==> ValidTargetMap(r.targetMap)
  {
    if |eng.stack| == 0 then eng
    else AddParent(eng, eng.stack[|eng.stack| - 1], eng.effects[child].deps)
  }

  /** One iteration keeps the invariant and leaves the dep listed. */
  lemma AddParentToKeepsConsistent(eng: Engine, parent: EffectId, d: DepRef)
    requires Consistent(eng) && parent in eng.effects
    ensures var r := AddParentTo(eng, parent, d);
      Consistent(r) && Lists(r, parent, d)
  {
    var r := AddParentTo(eng, parent, d);
    if parent in Subscribers(eng.targetMap, d) {
      assert Lists(eng, parent, d);
    } else {
      SubscribedConsistent(eng, r, parent, d);
    }
  }

  lemma {:induction false} AddParentKeepsConsistent(eng: Engine, parent: EffectId, deps: seq<DepRef>)
    requires Consistent(eng) && parent in eng.effects
    ensures var r := AddParent(eng, parent, deps);
      Consistent(r) && forall d :: d in deps ==> Lists(r, parent, d)
    decreases |deps|
  {
    if |deps| > 0 {
      var step := AddParentTo(eng, parent, deps[0]);
      AddParentToKeepsConsistent(eng, parent, deps[0]);
      AddParentKeepsConsistent(step, parent, deps[1..]);
      var r := AddParent(step, parent, deps[1..]);
      assert r == AddParent(eng, parent, deps);
      assert parent in Subscribers(r.targetMap, deps[0]);
      forall d | d in deps ensures Lists(r, parent, d) {
        assert parent in Subscribers(r.targetMap, d);
      }
    }
  }

  /** `trackChildRun` keeps the engine invariant: afterwards the parent is
      in every dep of the child and lists each of them exactly once. */
  lemma TrackChildRunKeepsConsistent(eng: Engine, child: EffectId)
    requires Consistent(eng) && child in eng.effects
    ensures var r := TrackChildRun(eng, child);
      && Consistent(r)
      && (|eng.stack| > 0 ==>
            var parent := eng.stack[|eng.stack| - 1];
            && NoDup(r.effects[parent].deps)
            && forall d :: d in eng.effects[child].deps ==> d in r.effects[parent].deps)
  {
    if |eng.stack| > 0 {
      var parent := eng.stack[|eng.stack| - 1];
      AddParentKeepsConsistent(eng, parent, eng.effects[child].deps);
    }
  }
}
