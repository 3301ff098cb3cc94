/** The effect registry and scheduler of effect.ts: effect handles, the
    stack of running effects, and the `track` / `trigger` protocol over the
    dependency store. Running a body is the business of the runtime; this
    module holds the bookkeeping around it. */
module Effect {
  import opened Values
  import opened Operations
  import opened Store

  /** What `scheduler` an effect was given. The only scheduler inside the
      core is the one `computed` installs, which just marks its ref dirty;
      any other is a user callback that receives the handle. */
  datatype Scheduler = NoScheduler | MarkDirty(computedRef: Oid) | CustomScheduler(fn: FnId)

  /** `ReactiveEffectOptions`; the debug callbacks are reduced to whether
      they are present. */
  datatype EffectOptions = EffectOptions(
    lazy: bool,
    computed: bool,
    scheduler: Scheduler,
    onTrack: bool,
    onTrigger: bool,
    onStop: bool)

  /** `EMPTY_OBJ`, the default options. */
  const EmptyOptions := EffectOptions(false, false, NoScheduler, false, false, false)

  /** The fields `createReactiveEffect` puts on a handle. */
  datatype ReactiveEffect = ReactiveEffect(
    active: bool,
    raw: FnId,
    deps: seq<DepRef>,
    computed: bool,
    scheduler: Scheduler,
    onTrack: bool,
    onTrigger: bool,
    onStop: bool)

  /** The module state of effect.ts together with `targetMap`. */
  datatype Engine = Engine(
    targetMap: TargetMap,
    effects: map<EffectId, ReactiveEffect>,
    stack: seq<EffectId>,          // activeReactiveEffectStack, top last
    shouldTrack: bool,
    nextEffect: EffectId)          // allocator for fresh handles
  {
    /** Every handle in the table was allocated before `nextEffect`. */
    ghost predicate FreshAbove() {
      forall e :: e in effects ==> e < nextEffect
    }

    /** Every effect on the stack is a registered handle. */
    ghost predicate StackKnown() {
      forall i :: 0 <= i < |stack| ==> stack[i] in effects
    }

    /** Every effect held by a dep of `target` is a registered handle. */
    ghost predicate SubscribersKnown(target: Oid) {
      forall k, e :: e in Subscribers(targetMap, DepRef(target, k)) ==> e in effects
    }
  }

  /** What `effect()` accepts: a plain function or an existing handle. */
  datatype Runnable = RawFunction(fn: FnId) | EffectHandle(handle: EffectId)

  /** `isEffect`: the value carries the effect brand. The source brands a
      handle by setting `effectSymbol` on the function `createReactiveEffect`
      builds; here a handle's brand is its entry in the `effects` table, so a
      plain function never has one and every registered handle has. */
  predicate IsEffect(eng: Engine, f: Runnable) {
    f.EffectHandle? && f.handle in eng.effects
  }

  /** The raw function behind `f`: a handle is unwrapped to its `raw`. */
  function RawOf(eng: Engine, f: Runnable): FnId
    requires f.EffectHandle? ==> f.handle in eng.effects
  {
    if IsEffect(eng, f) then eng.effects[f.handle].raw else f.fn
  }

  datatype Registration = Registration(engine: Engine, handle: EffectId, runNow: bool)

  /** `effect(fn, options)`: unwraps a handle to its raw function, creates a
      fresh active handle with no deps, and asks for an immediate run unless
      `lazy` is set (the run itself is the runtime's). */
  function Register(eng: Engine, f: Runnable, options: EffectOptions): (r: Registration)
    requires f.EffectHandle? ==> f.handle in eng.effects
    requires eng.FreshAbove()
    ensures r.handle !in eng.effects
    ensures f.EffectHandle? ==> r.handle != f.handle
    ensures r.handle in r.engine.effects
    ensures r.engine.effects.Keys == eng.effects.Keys + {r.handle}
    ensures forall e :: e in eng.effects ==> r.engine.effects[e] == eng.effects[e]
    ensures var h := r.engine.effects[r.handle];
      && h.active && h.deps == []
      && (f.RawFunction? ==> h.raw == f.fn)
      && (f.EffectHandle? ==> h.raw == eng.effects[f.handle].raw)
      && h.computed == options.computed && h.scheduler == options.scheduler
      && h.onTrack == options.onTrack && h.onTrigger == options.onTrigger && h.onStop == options.onStop
    ensures r.runNow <==> !options.lazy
    ensures r.engine.targetMap == eng.targetMap && r.engine.stack == eng.stack
    ensures r.engine.shouldTrack == eng.shouldTrack
    ensures r.engine.FreshAbove()
  {
    var h := eng.nextEffect;
    var e := ReactiveEffect(true, RawOf(eng, f), [], options.computed, options.scheduler,
                            options.onTrack, options.onTrigger, options.onStop);
    Registration(eng.(effects := eng.effects[h := e], nextEffect := h + 1), h, !options.lazy)
  }

  /** `isEffect` holds for the handles `effect()` created and for no plain
      function: registering brands exactly the new handle, and the handle
      runs the raw function behind `f`. */
  lemma RegisterBrandsHandle(eng: Engine, f: Runnable, options: EffectOptions, g: Runnable)
    requires f.EffectHandle? ==> f.handle in eng.effects
    requires eng.FreshAbove()
    ensures var r := Register(eng, f, options);
      && !IsEffect(eng, EffectHandle(r.handle))
      && IsEffect(r.engine, EffectHandle(r.handle))
      && (IsEffect(r.engine, g) <==> IsEffect(eng, g) || g == EffectHandle(r.handle))
      && (g.RawFunction? ==> !IsEffect(r.engine, g))
      && r.engine.effects[r.handle].raw == (if IsEffect(eng, f) then eng.effects[f.handle].raw else f.fn)
  {
  }

  /** Removes `e` from every dep in `deps`. */
  function RemoveFromDeps(tm: TargetMap, deps: seq<DepRef>, e: EffectId): (r: TargetMap)
    ensures forall d :: d in deps ==> e !in Subscribers(r, d)
    ensures forall d, x :: x in Subscribers(r, d) <==> x in Subscribers(tm, d) && !(x == e && d in deps)
    ensures forall d :: d !in deps ==> Subscribers(r, d) == Subscribers(tm, d)
    ensures forall d :: d in deps ==> Subscribers(r, d) == Remove(Subscribers(tm, d), e)
    ensures SameShape(tm, r)
    ensures ValidTargetMap(tm) ==> ValidTargetMap(r)
  {
    if |deps| == 0 then tm
    else
      var tm1 := RemoveSubscriber(tm, deps[0], e);
      var r := RemoveFromDeps(tm1, deps[1..], e);
      assert forall d :: d in deps <==> d == deps[0] || d in deps[1..];
      assert SameShape(tm, r) by {
        SameShapeTrans(tm, tm1, r);
      }
      assert forall d, x :: x in Subscribers(r, d) <==> x in Subscribers(tm, d) && !(x == e && d in deps) by {
        forall d, x ensures x in Subscribers(r, d) <==> x in Subscribers(tm, d) && !(x == e && d in deps) {
          assert x in Subscribers(tm1, d) <==> x in Subscribers(tm, d) && !(x == e && d == deps[0]);
        }
      }
      assert Subscribers(r, deps[0]) == Remove(Subscribers(tm, deps[0]), e) by {
        var s1 := Subscribers(tm1, deps[0]);
        assert e !in s1;
        assert Remove(s1, e) == s1;
      }
      r
  }

  /** `cleanup(effect)`: the effect leaves every dep listed in its `deps`,
      and `deps` is emptied. */
  function Cleanup(eng: Engine, e: EffectId): (r: Engine)
    requires e in eng.effects
    ensures e in r.effects && r.effects[e] == eng.effects[e].(deps := [])
    ensures forall x :: x in eng.effects && x != e ==> x in r.effects && r.effects[x] == eng.effects[x]
    ensures r.effects.Keys == eng.effects.Keys
    ensures forall d :: d in eng.effects[e].deps ==> e !in Subscribers(r.targetMap, d)
    ensures forall d, x :: x in Subscribers(r.targetMap, d) <==>
              x in Subscribers(eng.targetMap, d) && !(x == e && d in eng.effects[e].deps)
    ensures forall d :: d !in eng.effects[e].deps ==> Subscribers(r.targetMap, d) == Subscribers(eng.targetMap, d)
    ensures forall d :: d in eng.effects[e].deps ==> Subscribers(r.targetMap, d) == Remove(Subscribers(eng.targetMap, d), e)
    ensures SameShape(eng.targetMap, r.targetMap)
    ensures r.stack == eng.stack && r.shouldTrack == eng.shouldTrack && r.nextEffect == eng.nextEffect
    ensures ValidTargetMap(eng.targetMap) ==> ValidTargetMap(r.targetMap)
  {
    var eff := eng.effects[e];
    eng.(targetMap := RemoveFromDeps(eng.targetMap, eff.deps, e),
         effects := eng.effects[e := eff.(deps := [])])
  }

  datatype Stopped = Stopped(engine: Engine, onStopCalled: bool)

  /** `stop(effect)`: an active effect is cleaned up, its `onStop` fired and
      it becomes inactive; a stopped one is left alone. */
  function Stop(eng: Engine, e: EffectId): (r: Stopped)
    requires e in eng.effects
    ensures e in r.engine.effects && !r.engine.effects[e].active
    ensures !eng.effects[e].active ==> r == Stopped(eng, false)
    ensures eng.effects[e].active ==>
      && r.engine.effects[e] == eng.effects[e].(active := false, deps := [])
      && r.onStopCalled == eng.effects[e].onStop
      && (forall d :: d in eng.effects[e].deps ==> Subscribers(r.engine.targetMap, d) == Remove(Subscribers(eng.targetMap, d), e))
      && (forall d :: d in eng.effects[e].deps ==> e !in Subscribers(r.engine.targetMap, d))
    ensures forall d :: !(eng.effects[e].active && d in eng.effects[e].deps) ==>
      Subscribers(r.engine.targetMap, d) == Subscribers(eng.targetMap, d)
    ensures SameShape(eng.targetMap, r.engine.targetMap)
    ensures forall x :: x in eng.effects && x != e ==> x in r.engine.effects && r.engine.effects[x] == eng.effects[x]
    ensures r.engine.effects.Keys == eng.effects.Keys
    ensures r.engine.stack == eng.stack && r.engine.shouldTrack == eng.shouldTrack && r.engine.nextEffect == eng.nextEffect
  {
    var eff := eng.effects[e];
    if eff.active then
      var c := Cleanup(eng, e);
      Stopped(c.(effects := c.effects[e := c.effects[e].(active := false)]), eff.onStop)
    else Stopped(eng, false)
  }

  /** The decision `run` takes before calling the raw function. */
  datatype RunEntry =
    | CallDirect             // inactive: call `fn` without pushing or cleaning up the effect
    | AlreadyRunning         // on the stack: return without calling
    | Entered(engine: Engine)  // cleaned up and pushed; call `fn`, then pop

  /** The guard and set-up half of `run`. */
  function RunEnter(eng: Engine, e: EffectId): (r: RunEntry)
    requires e in eng.effects
    ensures r.CallDirect? <==> !eng.effects[e].active
    ensures r.AlreadyRunning? <==> eng.effects[e].active && e in eng.stack
    ensures r.Entered? ==>
      && r.engine.stack == eng.stack + [e]
      && r.engine.effects.Keys == eng.effects.Keys
      && r.engine.effects[e] == eng.effects[e].(deps := [])
      && (forall x :: x in eng.effects && x != e ==> r.engine.effects[x] == eng.effects[x])
      && (forall d :: e !in Subscribers(r.engine.targetMap, d) || d !in eng.effects[e].deps)
      && r.engine.targetMap == Cleanup(eng, e).targetMap
      && r.engine.shouldTrack == eng.shouldTrack && r.engine.nextEffect == eng.nextEffect
  {
    if !eng.effects[e].active then CallDirect
    else if e in eng.stack then AlreadyRunning
    else
      var c := Cleanup(eng, e);
      Entered(c.(stack := c.stack + [e]))
  }

  /** The `finally` half of `run`: pop the stack. */
  function RunExit(eng: Engine): (r: Engine)
    requires |eng.stack| > 0
    ensures r.stack == eng.stack[..|eng.stack| - 1]
    ensures r == eng.(stack := r.stack)
  {
    eng.(stack := eng.stack[..|eng.stack| - 1])
  }

  /** The effect `track` attributes a read to, if any. */
  function ActiveEffect(eng: Engine): (r: Option<EffectId>)
    ensures r.Some? <==> |eng.stack| > 0
    ensures r.Some? ==> r.value == eng.stack[|eng.stack| - 1]
  {
    if |eng.stack| == 0 then None else Some(eng.stack[|eng.stack| - 1])
  }

  datatype Option<T> = None | Some(value: T)

  /** The key a read is recorded under: an ITERATE read always uses
      `ITERATE_KEY`. */
  function TrackKey(op: OperationType, key: Value): (k: Value)
    ensures op.Iterate? ==> k == IterateKey
    ensures !op.Iterate? ==> k == key
  {
    if op.Iterate? then IterateKey else key
  }

  datatype Tracked = Tracked(engine: Engine, onTrackCalled: bool)

  /** `track(target, type, key)`. */
  function Track(eng: Engine, target: Oid, op: OperationType, key: Value): (r: Tracked)
    requires eng.StackKnown()
    ensures !eng.shouldTrack || |eng.stack| == 0 ==> r == Tracked(eng, false)
    ensures eng.shouldTrack && |eng.stack| > 0 ==>
      var e := eng.stack[|eng.stack| - 1];
      var d := DepRef(target, TrackKey(op, key));
      && e in Subscribers(r.engine.targetMap, d)
      && e in r.engine.effects
      && (e in Subscribers(eng.targetMap, d) ==>
            r.engine.effects == eng.effects && !r.onTrackCalled)
      && (e !in Subscribers(eng.targetMap, d) ==>
            && r.engine.effects == eng.effects[e := eng.effects[e].(deps := eng.effects[e].deps + [d])]
            && r.onTrackCalled == eng.effects[e].onTrack)
      && Subscribers(r.engine.targetMap, d) == Insert(Subscribers(eng.targetMap, d), e)
      && (forall d' :: d' != d ==> Subscribers(r.engine.targetMap, d') == Subscribers(eng.targetMap, d'))
    ensures r.engine.stack == eng.stack && r.engine.shouldTrack == eng.shouldTrack
    ensures r.engine.nextEffect == eng.nextEffect
    ensures r.engine.effects.Keys == eng.effects.Keys
    ensures ValidTargetMap(eng.targetMap) ==> ValidTargetMap(r.engine.targetMap)
  {
    if !eng.shouldTrack || |eng.stack| == 0 then Tracked(eng, false)
    else
      var e := eng.stack[|eng.stack| - 1];
      var d := DepRef(target, TrackKey(op, key));
      var tm := EnsureDep(eng.targetMap, d);
      if e in Subscribers(tm, d) then Tracked(eng.(targetMap := tm), false)
      else
        var eff := eng.effects[e];
        Tracked(eng.(targetMap := AddSubscriber(tm, d, e),
                     effects := eng.effects[e := eff.(deps := eff.deps + [d])]),
                eff.onTrack)
  }

  /** `pauseTracking()` / `resumeTracking()`. */
  function SetTracking(eng: Engine, on: bool): (r: Engine)
    ensures r.shouldTrack == on
    ensures r == eng.(shouldTrack := on)
  {
    eng.(shouldTrack := on)
  }

  /** The two `Set`s `trigger` fills: computed runners and plain effects. */
  datatype Runners = Runners(computedRunners: seq<EffectId>, plain: seq<EffectId>)

  const NoRunners := Runners([], [])

  /** The partition invariant of the two runner sets. */
  ghost predicate Partitioned(eng: Engine, rs: Runners) {
    && NoDup(rs.computedRunners) && NoDup(rs.plain)
    && (forall e :: e in rs.computedRunners ==> e in eng.effects && eng.effects[e].computed)
    && (forall e :: e in rs.plain ==> e in eng.effects && !eng.effects[e].computed)
  }

  /** `addRunners`: each member of `dep`, in order, goes to the computed
      set or the plain set according to its `computed` flag. */
  function AddRunners(eng: Engine, rs: Runners, dep: Dep): (r: Runners)
    requires forall e :: e in dep ==> e in eng.effects
    requires Partitioned(eng, rs)
    ensures Partitioned(eng, r)
    ensures forall e :: (e in r.computedRunners || e in r.plain) <==>
                        (e in rs.computedRunners || e in rs.plain || e in dep)
    decreases |dep|
  {
    if |dep| == 0 then rs
    else
      var e := dep[0];
      var rs' := if eng.effects[e].computed
                 then rs.(computedRunners := Insert(rs.computedRunners, e))
                 else rs.(plain := Insert(rs.plain, e));
      var r := AddRunners(eng, rs', dep[1..]);
      assert forall x :: x in dep <==> x == e || x in dep[1..];
      r
  }

  /** The CLEAR case: `depsMap.forEach(dep => addRunners(...))`. */
  function AddAllRunners(eng: Engine, rs: Runners, dm: KeyToDepMap, keys: seq<Value>): (r: Runners)
    requires forall k, e :: e in dm.Lookup(k) ==> e in eng.effects
    requires Partitioned(eng, rs)
    ensures Partitioned(eng, r)
    ensures forall e :: (e in r.computedRunners || e in r.plain) <==>
                        (e in rs.computedRunners || e in rs.plain || exists k :: k in keys && e in dm.Lookup(k))
    decreases |keys|
  {
    if |keys| == 0 then rs
    else
      var r := AddAllRunners(eng, AddRunners(eng, rs, dm.Lookup(keys[0])), dm, keys[1..]);
      assert forall k :: k in keys <==> k == keys[0] || k in keys[1..];
      r
  }

  /** The key `trigger` also notifies for ADD and DELETE. */
  function IterationKey(isArray: bool): Value {
    if isArray then LengthKey else IterateKey
  }

  /** The keys whose deps a trigger notifies, stated directly: every key of
      the target for CLEAR; otherwise the written key (when one is given)
      and, for ADD and DELETE, the iteration key. */
  ghost function NotifiedKeys(eng: Engine, target: Oid, op: OperationType, key: Value, isArray: bool): set<Value>
    requires target in eng.targetMap
  {
    if op.Clear? then eng.targetMap[target].deps.Keys
    else
      var written := if key != Undefined then {key} else {};
      var iteration := if op.ChangesKeySet() then {IterationKey(isArray)} else {};
      written + iteration
  }

  /** The runner sets of `trigger`, before they are run. */
  function CollectRunners(eng: Engine, target: Oid, op: OperationType, key: Value, isArray: bool): (r: Runners)
    requires eng.SubscribersKnown(target)
    ensures Partitioned(eng, r)
    ensures target !in eng.targetMap ==> r == NoRunners
    ensures target in eng.targetMap && eng.targetMap[target].Valid() ==>
      forall e :: (e in r.computedRunners || e in r.plain) <==>
        exists k :: k in NotifiedKeys(eng, target, op, key, isArray) && e in Subscribers(eng.targetMap, DepRef(target, k))
  {
    if target !in eng.targetMap then NoRunners
    else
      var dm := eng.targetMap[target];
      assert forall k, e :: e in dm.Lookup(k) ==> e in eng.effects by {
        forall k, e | e in dm.Lookup(k) ensures e in eng.effects {
          assert e in Subscribers(eng.targetMap, DepRef(target, k));
        }
      }
      if op.Clear? then
        var r := AddAllRunners(eng, NoRunners, dm, dm.keys);
        assert dm.Valid() ==> forall k :: k in dm.keys <==> k in NotifiedKeys(eng, target, op, key, isArray);
        r
      else
        var r1 := if key != Undefined then AddRunners(eng, NoRunners, dm.Lookup(key)) else NoRunners;
        var r := if op.ChangesKeySet() then AddRunners(eng, r1, dm.Lookup(IterationKey(isArray))) else r1;
        assert forall e :: (e in r.computedRunners || e in r.plain) <==>
                 exists k :: k in NotifiedKeys(eng, target, op, key, isArray) && e in Subscribers(eng.targetMap, DepRef(target, k)) by {
          var ks := NotifiedKeys(eng, target, op, key, isArray);
          forall e ensures (e in r.computedRunners || e in r.plain) <==>
                           exists k :: k in ks && e in Subscribers(eng.targetMap, DepRef(target, k)) {
            var inWritten := key != Undefined && e in dm.Lookup(key);
            var inIteration := op.ChangesKeySet() && e in dm.Lookup(IterationKey(isArray));
            assert (e in r.computedRunners || e in r.plain) <==> inWritten || inIteration;
            if inWritten {
              assert key in ks && e in Subscribers(eng.targetMap, DepRef(target, key));
            }
            if inIteration {
              assert IterationKey(isArray) in ks && e in Subscribers(eng.targetMap, DepRef(target, IterationKey(isArray)));
            }
            if exists k :: k in ks && e in Subscribers(eng.targetMap, DepRef(target, k)) {
              var k :| k in ks && e in Subscribers(eng.targetMap, DepRef(target, k));
              assert k == key || k == IterationKey(isArray);
            }
          }
        }
        r
  }

  /** How a notified effect is delivered (`scheduleRun`). */
  datatype Delivery = ToScheduler(scheduler: Scheduler) | RunDirectly

  datatype Notification = Notification(effect: EffectId, delivery: Delivery, onTriggerCalled: bool)

  /** `scheduleRun` for each effect, in order. */
  function Deliveries(eng: Engine, es: seq<EffectId>): (r: seq<Notification>)
    requires forall e :: e in es ==> e in eng.effects
    ensures |r| == |es|
    ensures forall i :: 0 <= i < |es| ==> r[i].effect == es[i]
    ensures forall i :: 0 <= i < |es| ==>
      var eff := eng.effects[es[i]];
      && (eff.scheduler.NoScheduler? <==> r[i].delivery.RunDirectly?)
      && (!eff.scheduler.NoScheduler? ==> r[i].delivery == ToScheduler(eff.scheduler))
      && r[i].onTriggerCalled == eff.onTrigger
  {
    if |es| == 0 then []
    else
      var eff := eng.effects[es[0]];
      var d := if eff.scheduler.NoScheduler? then RunDirectly else ToScheduler(eff.scheduler);
      [Notification(es[0], d, eff.onTrigger)] + Deliveries(eng, es[1..])
  }

  /** The effects of a notification list, in order. */
  function NotifiedEffects(ns: seq<Notification>): (r: seq<EffectId>)
    ensures |r| == |ns|
    ensures forall i :: 0 <= i < |ns| ==> r[i] == ns[i].effect
  {
    if |ns| == 0 then [] else [ns[0].effect] + NotifiedEffects(ns[1..])
  }

  /** `trigger(target, type, key)`, returning the ordered list of effects it
      hands to `scheduleRun` instead of running them: computed runners
      first, then plain effects, each once. `key == Undefined` is the
      source's `key === void 0`. */
  function Trigger(eng: Engine, target: Oid, op: OperationType, key: Value, isArray: bool): (r: seq<Notification>)
    requires eng.SubscribersKnown(target)
    ensures target !in eng.targetMap ==> r == []
    ensures NoDup(NotifiedEffects(r))
    ensures forall i :: 0 <= i < |r| ==> r[i].effect in eng.effects
    ensures forall i, j :: 0 <= i < j < |r| && eng.effects[r[j].effect].computed ==>
              eng.effects[r[i].effect].computed
    ensures target in eng.targetMap && eng.targetMap[target].Valid() ==>
      forall e :: e in NotifiedEffects(r) <==>
        exists k :: k in NotifiedKeys(eng, target, op, key, isArray) && e in Subscribers(eng.targetMap, DepRef(target, k))
    ensures forall i :: 0 <= i < |r| ==>
      var eff := eng.effects[r[i].effect];
      && (eff.scheduler.NoScheduler? <==> r[i].delivery.RunDirectly?)
      && (!eff.scheduler.NoScheduler? ==> r[i].delivery == ToScheduler(eff.scheduler))
      && r[i].onTriggerCalled == eff.onTrigger
  {
    var rs := CollectRunners(eng, target, op, key, isArray);
    var order := rs.computedRunners + rs.plain;
    ComputedFirst(eng, rs);
    var r := Deliveries(eng, order);
    assert NotifiedEffects(r) == order;
    r
  }

  /** Concatenating the two runner sets gives each effect once, computed
      runners first. */
  lemma ComputedFirst(eng: Engine, rs: Runners)
    requires Partitioned(eng, rs)
    ensures var order := rs.computedRunners + rs.plain;
      && NoDup(order)
      && (forall e :: e in order ==> e in eng.effects)
      && (forall i, j :: 0 <= i < j < |order| && eng.effects[order[j]].computed ==> eng.effects[order[i]].computed)
  {
    var order := rs.computedRunners + rs.plain;
    var n := |rs.computedRunners|;
    forall i | 0 <= i < |order|
      ensures order[i] in eng.effects && (eng.effects[order[i]].computed <==> i < n)
    {
      if i < n {
        assert order[i] in rs.computedRunners;
      } else {
        assert order[i] == rs.plain[i - n];
      }
    }
    forall i, j | 0 <= i < j < |order| ensures order[i] != order[j] {
      if i >= n {
        assert order[i] == rs.plain[i - n] && order[j] == rs.plain[j - n];
      }
    }
  }
}
