/** The engine at work: effect bodies and computed getters as scripts of
    reads, `run` with its guard, push and pop around the body, computed
    reads with `trackChildRun`, and writes whose `trigger` list is
    delivered in order. Values computed by bodies are not modelled; what
    is recorded is which raw functions were invoked, in order. */
module Runtime {
  import opened Values
  import opened Operations
  import opened Store
  import opened Effect
  import opened Consistency
  import opened Computed

  /** One step of a body or getter. */
  datatype Action =
    | Touch(target: Oid, op: OperationType, key: Value)  // a read through a wrapper: `track(target, op, key)`
    | ReadComputed(ref: Oid)                             // reads `.value` of a computed ref
    | Invoke(handle: EffectId)                           // calls an effect handle
    | Throw                                              // throws

  type Script = seq<Action>

  /** Engine, computed refs, the scripts of the raw functions, the raw
      functions invoked so far, and the effects handed to a user
      scheduler so far. */
  datatype World = World(
    engine: Engine,
    computeds: map<Oid, ComputedState>,
    bodies: map<FnId, Script>,
    calls: seq<FnId>,
    scheduled: seq<EffectId>)

  /** The script of a raw function; an unknown function does nothing. */
  function Body(w: World, fn: FnId): Script {
    if fn in w.bodies then w.bodies[fn] else []
  }

  /** The engine is consistent, and the runner of computed `c` is the one
      effect whose scheduler marks `c` dirty. */
  ghost predicate Inv(w: World) {
    && Consistent(w.engine)
    && (forall c :: c in w.computeds ==>
          w.computeds[c].runner in w.engine.effects
          && w.engine.effects[w.computeds[c].runner].scheduler == MarkDirty(c))
    && (forall e :: e in w.engine.effects && w.engine.effects[e].scheduler.MarkDirty? ==>
          w.engine.effects[e].scheduler.computedRef in w.computeds
          && w.computeds[w.engine.effects[e].scheduler.computedRef].runner == e)
  }

  /** What running a body may change: only `deps` of effects (and not of
      a stopped effect that is not running), computed refs only from
      dirty to clean, and the call log only by appending; the stack is as
      it was. */
  ghost predicate Frame(w: World, w': World) {
    && Inv(w')
    && w'.engine.stack == w.engine.stack
    && w'.engine.shouldTrack == w.engine.shouldTrack
    && w'.engine.nextEffect == w.engine.nextEffect
    && w'.engine.effects.Keys == w.engine.effects.Keys
    && (forall x :: x in w.engine.effects ==>
          w'.engine.effects[x] == w.engine.effects[x].(deps := w'.engine.effects[x].deps))
    && (forall x :: x in w.engine.effects && !w.engine.effects[x].active && x !in w.engine.stack ==>
          w'.engine.effects[x] == w.engine.effects[x])
    && w'.computeds.Keys == w.computeds.Keys
    && (forall c :: c in w.computeds ==> w'.computeds[c] == w.computeds[c].(dirty := w'.computeds[c].dirty))
    && (forall c :: c in w.computeds && !w.computeds[c].dirty ==> !w'.computeds[c].dirty)
    && w'.bodies == w.bodies
    && w'.scheduled == w.scheduled
    && IsPrefix(w.calls, w'.calls)
  }

  predicate IsPrefix<T(==)>(s: seq<T>, t: seq<T>) {
    |s| <= |t| && t[..|s|] == s
  }

  lemma FrameTrans(w1: World, w2: World, w3: World)
    requires Frame(w1, w2) && Frame(w2, w3)
    ensures Frame(w1, w3)
  {
    assert w3.calls[..|w2.calls|][..|w1.calls|] == w3.calls[..|w1.calls|];
  }

  datatype Outcome = Normal | Threw | OutOfFuel

  datatype Ran = Ran(world: World, outcome: Outcome)

  /** `run(effect, fn, args)` on handle `e`. `fuel` bounds the nesting of
      runs; running out is reported and stops the computation. */
  function Run(w: World, e: EffectId, fuel: nat): (r: Ran)
    requires Inv(w) && e in w.engine.effects
    ensures Frame(w, r.world)
    ensures w.engine.effects[e].active && e in w.engine.stack ==> r == Ran(w, Normal)
    ensures !(w.engine.effects[e].active && e in w.engine.stack) ==>
              |r.world.calls| > |w.calls| && r.world.calls[|w.calls|] == w.engine.effects[e].raw
    decreases fuel, 2, 0
  {
    var eff := w.engine.effects[e];
    var w1 := w.(calls := w.calls + [eff.raw]);
    match RunEnter(w.engine, e)
    case AlreadyRunning => Ran(w, Normal)
    case CallDirect =>
      assert Frame(w, w1) by {
        LogCallFrame(w, eff.raw);
      }
      var x := Exec(w1, Body(w, eff.raw), fuel);
      assert Frame(w, x.world) && x.world.calls[|w.calls|] == eff.raw by {
        FrameTrans(w, w1, x.world);
        PrefixAt(w1.calls, x.world.calls, |w.calls|);
      }
      x
    case Entered(eng) =>
      var w2 := w1.(engine := eng);
      assert Inv(w2) by {
        EnterInv(w, e);
      }
      var x := Exec(w2, Body(w, eff.raw), fuel);
      var w3 := x.world.(engine := RunExit(x.world.engine));
      assert Frame(w, w3) && w3.calls[|w.calls|] == eff.raw by {
        ExitFrame(w, e, x.world);
      }
      Ran(w3, x.outcome)
  }

  /** A script, step by step, stopping at the first throw. */
  function Exec(w: World, script: Script, fuel: nat): (r: Ran)
    requires Inv(w)
    ensures Frame(w, r.world)
    decreases fuel, 1, |script|
  {
    if |script| == 0 then Ran(w, Normal)
    else
      var s := Step(w, script[0], fuel);
      if !s.outcome.Normal? then s
      else
        var x := Exec(s.world, script[1..], fuel);
        assert Frame(w, x.world) by {
          FrameTrans(w, s.world, x.world);
        }
        x
  }

  /** One action. A handle or computed ref that does not exist is
      skipped. */
  function Step(w: World, a: Action, fuel: nat): (r: Ran)
    requires Inv(w)
    ensures Frame(w, r.world)
    decreases fuel, 0, 1
  {
    match a
    case Touch(t, op, key) =>
      assert Frame(w, w.(engine := Track(w.engine, t, op, key).engine)) by {
        TrackFrame(w, t, op, key);
      }
      Ran(w.(engine := Track(w.engine, t, op, key).engine), Normal)
    case ReadComputed(c) =>
      if c in w.computeds then ReadComputedValue(w, c, fuel) else Ran(w, Normal)
    case Invoke(h) =>
      if h !in w.engine.effects then Ran(w, Normal)
      else if fuel == 0 then Ran(w, OutOfFuel)
      else Run(w, h, fuel - 1)
    case Throw => Ran(w, Threw)
  }

  /** The `value` getter of computed `c`: run the runner when dirty (a
      throw leaves it dirty), mark it clean, then `trackChildRun`. */
  function ReadComputedValue(w: World, c: Oid, fuel: nat): (r: Ran)
    requires Inv(w) && c in w.computeds
    ensures Frame(w, r.world)
    ensures r.outcome.Normal? ==> !r.world.computeds[c].dirty
    ensures !w.computeds[c].dirty ==>
              r == Ran(w.(engine := TrackChildRun(w.engine, w.computeds[c].runner)), Normal)
    decreases fuel, 0, 0
  {
    var st := w.computeds[c];
    if st.dirty then
      if fuel == 0 then Ran(w, OutOfFuel)
      else
        var x := Run(w, st.runner, fuel - 1);
        if !x.outcome.Normal? then x
        else
          var w1 := Cleaned(x.world, c);
          assert Frame(w, w1) by {
            CleanedFrame(x.world, c);
            FrameTrans(w, x.world, w1);
          }
          assert Frame(w, ChildRun(w1, st.runner)) by {
            ChildRunFrame(w1, st.runner);
            FrameTrans(w, w1, ChildRun(w1, st.runner));
          }
          Ran(ChildRun(w1, st.runner), Normal)
    else
      assert Frame(w, ChildRun(w, st.runner)) by {
        ChildRunFrame(w, st.runner);
      }
      Ran(ChildRun(w, st.runner), Normal)
  }

  /** `dirty = false` on computed `c`. */
  function Cleaned(w: World, c: Oid): World
    requires c in w.computeds
  {
    w.(computeds := w.computeds[c := w.computeds[c].(dirty := false)])
  }

  /** `trackChildRun(runner)` on the world. */
  function ChildRun(w: World, runner: EffectId): World
    requires runner in w.engine.effects && w.engine.StackKnown()
  {
    w.(engine := TrackChildRun(w.engine, runner))
  }

  // ---------------------------------------------------------------------
  // The frame, step by step

  lemma PrefixAt<T>(s: seq<T>, t: seq<T>, i: nat)
    requires IsPrefix(s, t) && i < |s|
    ensures t[i] == s[i] && IsPrefix(s[..i], t)
  {
    assert t[..|s|][i] == t[i];
  }

  lemma LogCallFrame(w: World, fn: FnId)
    requires Inv(w)
    ensures Frame(w, w.(calls := w.calls + [fn]))
  {
  }

  /** Effects that differ at most in their `deps`. */
  ghost predicate SameHandles(eng: Engine, eng': Engine) {
    && eng'.effects.Keys == eng.effects.Keys
    && forall x :: x in eng.effects ==> eng'.effects[x] == eng.effects[x].(deps := eng'.effects[x].deps)
  }

  /** Effects with the same schedulers. */
  ghost predicate SameSchedulers(eng: Engine, eng': Engine) {
    && eng'.effects.Keys == eng.effects.Keys
    && forall x :: x in eng.effects ==> eng'.effects[x].scheduler == eng.effects[x].scheduler
  }

  /** `Inv` only looks at the engine's consistency and at fields a frame
      step keeps. */
  lemma InvCarries(w: World, w': World)
    requires Inv(w) && Consistent(w'.engine) && SameSchedulers(w.engine, w'.engine)
    requires w'.computeds.Keys == w.computeds.Keys
    requires forall c :: c in w.computeds ==> w'.computeds[c].runner == w.computeds[c].runner
    ensures Inv(w')
  {
    forall e | e in w'.engine.effects && w'.engine.effects[e].scheduler.MarkDirty?
      ensures w'.engine.effects[e].scheduler.computedRef in w'.computeds
      ensures w'.computeds[w'.engine.effects[e].scheduler.computedRef].runner == e
    {
      assert w'.engine.effects[e].scheduler == w.engine.effects[e].scheduler;
    }
    forall c | c in w'.computeds
      ensures w'.computeds[c].runner in w'.engine.effects
      ensures w'.engine.effects[w'.computeds[c].runner].scheduler == MarkDirty(c)
    {
      assert w'.engine.effects[w.computeds[c].runner].scheduler == w.engine.effects[w.computeds[c].runner].scheduler;
    }
  }

  lemma FrameRefl(w: World)
    requires Inv(w)
    ensures Frame(w, w)
  {
  }

  /** A frame step that touches only the engine. */
  lemma EngineStepFrame(w: World, eng': Engine)
    requires Inv(w) && Consistent(eng') && SameHandles(w.engine, eng')
    requires eng'.stack == w.engine.stack && eng'.shouldTrack == w.engine.shouldTrack
    requires eng'.nextEffect == w.engine.nextEffect
    requires forall x :: x in w.engine.effects && !w.engine.effects[x].active && x !in w.engine.stack ==>
               eng'.effects[x] == w.engine.effects[x]
    ensures Frame(w, w.(engine := eng'))
  {
    InvCarries(w, w.(engine := eng'));
  }

  lemma TrackFrame(w: World, t: Oid, op: OperationType, key: Value)
    requires Inv(w)
    ensures Frame(w, w.(engine := Track(w.engine, t, op, key).engine))
  {
    TrackKeepsConsistent(w.engine, t, op, key);
    TrackKeepsHandles(w.engine, t, op, key);
    EngineStepFrame(w, Track(w.engine, t, op, key).engine);
  }

  /** `track` changes at most the `deps` of the running effect. */
  lemma TrackKeepsHandles(eng: Engine, t: Oid, op: OperationType, key: Value)
    requires eng.StackKnown()
    ensures var r := Track(eng, t, op, key).engine;
      && SameHandles(eng, r)
      && forall x :: x in eng.effects && x !in eng.stack ==> r.effects[x] == eng.effects[x]
  {
    if eng.shouldTrack && |eng.stack| > 0 {
      var e := eng.stack[|eng.stack| - 1];
      var r := Track(eng, t, op, key).engine;
      assert r.effects == eng.effects || r.effects == eng.effects[e := eng.effects[e].(deps := r.effects[e].deps)];
    }
  }

  lemma CleanedFrame(w: World, c: Oid)
    requires Inv(w) && c in w.computeds
    ensures Frame(w, Cleaned(w, c))
  {
  }

  lemma ChildRunFrame(w: World, runner: EffectId)
    requires Inv(w) && runner in w.engine.effects
    ensures Frame(w, ChildRun(w, runner))
  {
    TrackChildRunKeepsConsistent(w.engine, runner);
  }

  /** The set-up of `run` on a consistent world. */
  lemma EnterInv(w: World, e: EffectId)
    requires Inv(w) && e in w.engine.effects && RunEnter(w.engine, e).Entered?
    ensures Inv(w.(calls := w.calls + [w.engine.effects[e].raw], engine := RunEnter(w.engine, e).engine))
  {
    RunEnterKeepsConsistent(w.engine, e);
  }

  /** The pop at the end of `run` restores the caller's stack; the run as a
      whole stays in the frame. */
  lemma ExitFrame(w: World, e: EffectId, x: World)
    requires Inv(w) && e in w.engine.effects && RunEnter(w.engine, e).Entered?
    requires var eff := w.engine.effects[e];
      Frame(w.(calls := w.calls + [eff.raw], engine := RunEnter(w.engine, e).engine), x)
    ensures var w3 := x.(engine := RunExit(x.engine));
      Frame(w, w3) && |w3.calls| > |w.calls| && w3.calls[|w.calls|] == w.engine.effects[e].raw
  {
    var eff := w.engine.effects[e];
    var w2 := w.(calls := w.calls + [eff.raw], engine := RunEnter(w.engine, e).engine);
    var w3 := x.(engine := RunExit(x.engine));
    PopEngine(w, e, x);
    PrefixAt(w2.calls, x.calls, |w.calls|);
    assert w2.calls[..|w.calls|] == w.calls;
    FrameIntro(w, w3);
  }

  /** The engine half of `ExitFrame`. */
  lemma PopEngine(w: World, e: EffectId, x: World)
    requires Inv(w) && e in w.engine.effects && RunEnter(w.engine, e).Entered?
    requires var eff := w.engine.effects[e];
      Frame(w.(calls := w.calls + [eff.raw], engine := RunEnter(w.engine, e).engine), x)
    ensures var w3 := x.(engine := RunExit(x.engine));
      && Inv(w3)
      && w3.engine.stack == w.engine.stack
      && w3.engine.shouldTrack == w.engine.shouldTrack
      && w3.engine.nextEffect == w.engine.nextEffect
      && SameHandles(w.engine, w3.engine)
      && (forall y :: y in w.engine.effects && !w.engine.effects[y].active && y !in w.engine.stack ==>
            w3.engine.effects[y] == w.engine.effects[y])
  {
    var w3 := x.(engine := RunExit(x.engine));
    RunExitKeepsConsistent(x.engine);
    PopHandles(w.engine, e, x.engine);
    InvCarries(w, w3);
  }

  /** Popping after a run: the stack is the caller's again and only `deps`
      differ from before the cleanup. */
  lemma PopHandles(eng: Engine, e: EffectId, xe: Engine)
    requires e in eng.effects && RunEnter(eng, e).Entered?
    requires var eng2 := RunEnter(eng, e).engine;
      && xe.stack == eng2.stack && SameHandles(eng2, xe)
      && forall y :: y in eng2.effects && !eng2.effects[y].active && y !in eng2.stack ==> xe.effects[y] == eng2.effects[y]
    ensures var r := RunExit(xe);
      && r.stack == eng.stack
      && SameHandles(eng, r)
      && forall y :: y in eng.effects && !eng.effects[y].active && y !in eng.stack ==> r.effects[y] == eng.effects[y]
  {
    var eng2 := RunEnter(eng, e).engine;
    assert eng2 == Cleanup(eng, e).(stack := eng.stack + [e]);
    var r := RunExit(xe);
    assert r.stack == eng.stack;
    forall y | y in eng.effects
      ensures r.effects[y] == eng.effects[y].(deps := r.effects[y].deps)
    {
      assert xe.effects[y] == eng2.effects[y].(deps := xe.effects[y].deps);
    }
    forall y | y in eng.effects && !eng.effects[y].active && y !in eng.stack
      ensures r.effects[y] == eng.effects[y]
    {
      assert y != e;
      assert y !in eng2.stack;
    }
  }

  /** `Frame` from its parts. */
  lemma FrameIntro(w: World, w': World)
    requires Inv(w')
    requires w'.engine.stack == w.engine.stack
    requires w'.engine.shouldTrack == w.engine.shouldTrack && w'.engine.nextEffect == w.engine.nextEffect
    requires SameHandles(w.engine, w'.engine)
    requires forall x :: x in w.engine.effects && !w.engine.effects[x].active && x !in w.engine.stack ==>
               w'.engine.effects[x] == w.engine.effects[x]
    requires w'.computeds.Keys == w.computeds.Keys
    requires forall c :: c in w.computeds ==> w'.computeds[c] == w.computeds[c].(dirty := w'.computeds[c].dirty)
    requires forall c :: c in w.computeds && !w.computeds[c].dirty ==> !w'.computeds[c].dirty
    requires w'.bodies == w.bodies && w'.scheduled == w.scheduled
    requires IsPrefix(w.calls, w'.calls)
    ensures Frame(w, w')
  {
  }

  // ---------------------------------------------------------------------
  // Writes, registration and stopping

  /** What a top-level operation may change: like `Frame`, except that
      computed refs may become dirty and effects may be handed to user
      schedulers. */
  ghost predicate Outer(w: World, w': World) {
    && Inv(w')
    && w'.engine.stack == w.engine.stack
    && w'.engine.shouldTrack == w.engine.shouldTrack
    && w'.engine.nextEffect == w.engine.nextEffect
    && SameHandles(w.engine, w'.engine)
    && (forall x :: x in w.engine.effects && !w.engine.effects[x].active && x !in w.engine.stack ==>
          w'.engine.effects[x] == w.engine.effects[x])
    && w'.computeds.Keys == w.computeds.Keys
    && (forall c :: c in w.computeds ==> w'.computeds[c] == w.computeds[c].(dirty := w'.computeds[c].dirty))
    && w'.bodies == w.bodies
    && IsPrefix(w.calls, w'.calls)
    && IsPrefix(w.scheduled, w'.scheduled)
  }

  lemma FrameOuter(w: World, w': World)
    requires Frame(w, w')
    ensures Outer(w, w')
  {
  }

  lemma OuterTrans(w1: World, w2: World, w3: World)
    requires Outer(w1, w2) && Outer(w2, w3)
    ensures Outer(w1, w3)
  {
    assert w3.calls[..|w2.calls|][..|w1.calls|] == w3.calls[..|w1.calls|];
    assert w3.scheduled[..|w2.scheduled|][..|w1.scheduled|] == w3.scheduled[..|w1.scheduled|];
  }

  /** Notifications as `trigger` produces them: registered effects, and a
      scheduler delivery only for an effect that has one. */
  ghost predicate Deliverable(w: World, ns: seq<Notification>) {
    forall i :: 0 <= i < |ns| ==> ns[i].effect in w.engine.effects && ns[i].delivery != ToScheduler(NoScheduler)
  }

  /** The computed ref `c` is marked dirty by none of the notifications. */
  predicate SparesComputed(ns: seq<Notification>, c: Oid) {
    forall i :: 0 <= i < |ns| ==> ns[i].delivery != ToScheduler(MarkDirty(c))
  }

  /** `scheduleRun` for each notification in order: a plain effect is run,
      the computed scheduler marks its ref dirty, a user scheduler receives
      the effect. A throw stops the loop. */
  function Deliver(w: World, ns: seq<Notification>, fuel: nat): (r: Ran)
    requires Inv(w) && Deliverable(w, ns)
    ensures Outer(w, r.world)
    ensures forall c :: c in w.computeds && !w.computeds[c].dirty && SparesComputed(ns, c) ==>
              !r.world.computeds[c].dirty
    decreases |ns|
  {
    if |ns| == 0 then
      assert Outer(w, w) by {
        FrameRefl(w);
      }
      Ran(w, Normal)
    else
      var n := ns[0];
      var x := Notify(w, n, fuel);
      if !x.outcome.Normal? then x
      else
        var y := Deliver(x.world, ns[1..], fuel);
        assert Outer(w, y.world) by {
          OuterTrans(w, x.world, y.world);
        }
        assert forall c :: c in w.computeds && !w.computeds[c].dirty && SparesComputed(ns, c) ==>
                 !y.world.computeds[c].dirty by {
          SparesTail(w, ns, x.world, y.world);
        }
        y
  }

  /** A ref the first notification spares and the rest spare stays clean. */
  lemma SparesTail(w: World, ns: seq<Notification>, x: World, y: World)
    requires |ns| > 0 && x.computeds.Keys == w.computeds.Keys && y.computeds.Keys == x.computeds.Keys
    requires forall c :: c in w.computeds && !w.computeds[c].dirty && ns[0].delivery != ToScheduler(MarkDirty(c)) ==>
               !x.computeds[c].dirty
    requires forall c :: c in x.computeds && !x.computeds[c].dirty && SparesComputed(ns[1..], c) ==>
               !y.computeds[c].dirty
    ensures forall c :: c in w.computeds && !w.computeds[c].dirty && SparesComputed(ns, c) ==>
              !y.computeds[c].dirty
  {
    forall c | c in w.computeds && !w.computeds[c].dirty && SparesComputed(ns, c)
      ensures !y.computeds[c].dirty
    {
      assert ns[0].delivery != ToScheduler(MarkDirty(c));
      assert SparesComputed(ns[1..], c) by {
        forall i | 0 <= i < |ns[1..]| ensures ns[1..][i].delivery != ToScheduler(MarkDirty(c)) {
          assert ns[1..][i] == ns[i + 1];
        }
      }
    }
  }

  /** `scheduleRun` for one notification. */
  function Notify(w: World, n: Notification, fuel: nat): (r: Ran)
    requires Inv(w) && n.effect in w.engine.effects && n.delivery != ToScheduler(NoScheduler)
    ensures Outer(w, r.world)
    ensures forall c :: c in w.computeds && !w.computeds[c].dirty && n.delivery != ToScheduler(MarkDirty(c)) ==>
              !r.world.computeds[c].dirty
    ensures n.delivery.RunDirectly? ==> r == Run(w, n.effect, fuel)
    ensures n.delivery.ToScheduler? && n.delivery.scheduler.MarkDirty? ==>
              var c := n.delivery.scheduler.computedRef;
              r.world.calls == w.calls && (c in w.computeds ==> r.world.computeds[c].dirty)
    ensures n.delivery.ToScheduler? && n.delivery.scheduler.CustomScheduler? ==>
              r == Ran(w.(scheduled := w.scheduled + [n.effect]), Normal)
  {
    if n.delivery.RunDirectly? then
      var x := Run(w, n.effect, fuel);
      assert Outer(w, x.world) by {
        FrameOuter(w, x.world);
      }
      x
    else if n.delivery.scheduler.MarkDirty? then
      Ran(MarkComputedDirty(w, n.delivery.scheduler.computedRef), Normal)
    else
      Ran(ScheduleEffect(w, n.effect), Normal)
  }

  /** The computed runner's scheduler: `dirty = true` on its ref. */
  function MarkComputedDirty(w: World, c: Oid): (r: World)
    requires Inv(w)
    ensures Outer(w, r) && r.calls == w.calls
    ensures c in w.computeds ==> r.computeds[c].dirty
    ensures forall c' :: c' in w.computeds && c' != c ==> r.computeds[c'] == w.computeds[c']
  {
    if c in w.computeds then
      var w' := w.(computeds := w.computeds[c := MarkedDirty(w.computeds[c])]);
      assert Outer(w, w') by {
        InvCarries(w, w');
      }
      w'
    else
      assert Outer(w, w) by {
        FrameRefl(w);
      }
      w
  }

  /** A user scheduler receives the effect; nothing else changes. */
  function ScheduleEffect(w: World, e: EffectId): (r: World)
    requires Inv(w)
    ensures Outer(w, r)
    ensures r.scheduled == w.scheduled + [e] && r == w.(scheduled := r.scheduled)
  {
    var w' := w.(scheduled := w.scheduled + [e]);
    assert Outer(w, w') by {
      InvCarries(w, w');
    }
    w'
  }

  /** A write the handlers report as `trigger(target, op, key)`: the
      notification list is computed once, then delivered. */
  function Write(w: World, target: Oid, op: OperationType, key: Value, isArray: bool, fuel: nat): (r: Ran)
    requires Inv(w)
    ensures Outer(w, r.world)
  {
    assert w.engine.SubscribersKnown(target) by {
      ConsistentSubscribersKnown(w.engine, target);
    }
    Deliver(w, Trigger(w.engine, target, op, key, isArray), fuel)
  }

  /** What a handler reported, carried out on `target`. */
  function Report(w: World, target: Oid, ev: Operations.Event, isArray: bool, fuel: nat): (r: Ran)
    requires Inv(w)
    ensures Outer(w, r.world)
    ensures ev.NoEvent? ==> r == Ran(w, Normal)
    ensures ev.Tracks? ==> r == Step(w, Touch(target, ev.op, ev.key), fuel)
    ensures ev.Triggers? ==> r == Write(w, target, ev.op, ev.key, isArray, fuel)
  {
    match ev
    case NoEvent =>
      assert Outer(w, w) by {
        FrameRefl(w);
      }
      Ran(w, Normal)
    case Tracks(op, key) =>
      var x := Step(w, Touch(target, op, key), fuel);
      assert Outer(w, x.world) by {
        FrameOuter(w, x.world);
      }
      x
    case Triggers(op, key) => Write(w, target, op, key, isArray, fuel)
  }

  datatype Launched = Launched(ran: Ran, handle: EffectId)

  /** `effect(fn, options)`. The options come from user code, whose
      scheduler can never be the one `computed` installs. */
  function CreateEffect(w: World, f: Runnable, options: EffectOptions, fuel: nat): (r: Launched)
    requires Inv(w) && (f.EffectHandle? ==> f.handle in w.engine.effects)
    requires !options.scheduler.MarkDirty?
    ensures Inv(r.ran.world) && r.ran.world.engine.stack == w.engine.stack
    ensures r.handle !in w.engine.effects && r.handle in r.ran.world.engine.effects
    ensures r.ran.world.engine.effects.Keys == w.engine.effects.Keys + {r.handle}
    ensures r.ran.world.engine.effects[r.handle].raw == RawOf(w.engine, f)
    ensures r.ran.world.computeds.Keys == w.computeds.Keys
    ensures options.lazy ==> r.ran.world.calls == w.calls && r.ran.outcome.Normal?
    ensures !options.lazy ==>
              |r.ran.world.calls| > |w.calls| && r.ran.world.calls[|w.calls|] == RawOf(w.engine, f)
  {
    var reg := Register(w.engine, f, options);
    var w1 := w.(engine := reg.engine);
    assert Inv(w1) by {
      RegisterInv(w, f, options);
    }
    if reg.runNow then
      assert reg.handle !in w1.engine.stack;
      Launched(Run(w1, reg.handle, fuel), reg.handle)
    else Launched(Ran(w1, Normal), reg.handle)
  }

  lemma RegisterInv(w: World, f: Runnable, options: EffectOptions)
    requires Inv(w) && (f.EffectHandle? ==> f.handle in w.engine.effects)
    requires !options.scheduler.MarkDirty?
    ensures var reg := Register(w.engine, f, options);
      Inv(w.(engine := reg.engine)) && reg.handle !in reg.engine.stack
  {
    RegisterKeepsConsistent(w.engine, f, options);
  }

  /** `computed(getterOrOptions)` as computed ref `ref`: the getter is not
      invoked and the value starts dirty. */
  function CreateComputed(w: World, acc: Accessors, ref: Oid): (r: World)
    requires Inv(w) && ref !in w.computeds
    ensures Inv(r)
    ensures ref in r.computeds && r.computeds[ref].dirty && r.computeds[ref].accessors == acc
    ensures r.computeds[ref].runner !in w.engine.effects
    ensures r.calls == w.calls && r.engine.stack == w.engine.stack
    ensures r.engine.effects.Keys == w.engine.effects.Keys + {r.computeds[ref].runner}
    ensures r.computeds == w.computeds[ref := r.computeds[ref]]
  {
    var m := MakeComputed(w.engine, acc, ref);
    var r := w.(engine := m.engine, computeds := w.computeds[ref := m.state]);
    assert Inv(r) by {
      MakeComputedKeepsConsistent(w.engine, acc, ref);
    }
    r
  }

  /** `stop(effect)` on the world. */
  function StopEffect(w: World, e: EffectId): (r: World)
    requires Inv(w) && e in w.engine.effects
    ensures Inv(r)
    ensures e in r.engine.effects && !r.engine.effects[e].active
    ensures !w.engine.effects[e].active ==> r == w
    ensures w.engine.effects[e].active ==> r.engine.effects[e].deps == []
    ensures r.engine == Stop(w.engine, e).engine
    ensures forall x :: x in w.engine.effects && x != e ==> x in r.engine.effects && r.engine.effects[x] == w.engine.effects[x]
    ensures r.engine.shouldTrack == w.engine.shouldTrack && r.engine.nextEffect == w.engine.nextEffect
    ensures r.computeds == w.computeds && r.calls == w.calls && r.engine.stack == w.engine.stack
    ensures r.bodies == w.bodies && r.scheduled == w.scheduled
  {
    var r := w.(engine := Stop(w.engine, e).engine);
    assert Inv(r) by {
      StopKeepsConsistent(w.engine, e);
      InvCarries(w, r);
    }
    r
  }

  // ---------------------------------------------------------------------
  // Properties of runs

  /** Running a stopped effect calls its raw function without pushing or
      cleaning it up: the call is logged, and the effect gains no dep (its
      body's reads go to whichever effect is on top of the stack). */
  lemma StoppedRunGainsNoDeps(w: World, e: EffectId, fuel: nat)
    requires Inv(w) && e in w.engine.effects && !w.engine.effects[e].active && e !in w.engine.stack
    ensures var r := Run(w, e, fuel);
      && r.world.engine.effects[e] == w.engine.effects[e]
      && r.world.calls[|w.calls|] == w.engine.effects[e].raw
  {
  }

  /** A stopped effect that is not running stays stopped and subscribed
      to nothing through any later write, and no write notifies it. */
  lemma StoppedEffectNeverNotified(w: World, e: EffectId, target: Oid, op: OperationType, key: Value,
                                   isArray: bool, fuel: nat)
    requires Inv(w) && e in w.engine.effects && e !in w.engine.stack
    requires !w.engine.effects[e].active && w.engine.effects[e].deps == []
    ensures w.engine.SubscribersKnown(target)
    ensures e !in NotifiedEffects(Trigger(w.engine, target, op, key, isArray))
    ensures Write(w, target, op, key, isArray, fuel).world.engine.effects[e] == w.engine.effects[e]
  {
    UnsubscribedNotNotified(w.engine, e, target, op, key, isArray);
  }

  /** After its runner is stopped (while clean and not running), a computed
      ref is never marked dirty again by a write: the stopped runner is
      notified by no `trigger`, and it is the only effect whose scheduler
      marks that ref. */
  lemma StoppedComputedStaysClean(w: World, c: Oid, target: Oid, op: OperationType, key: Value,
                                  isArray: bool, fuel: nat)
    requires Inv(w) && c in w.computeds && !w.computeds[c].dirty
    requires w.engine.effects[w.computeds[c].runner].deps == []
    ensures !Write(w, target, op, key, isArray, fuel).world.computeds[c].dirty
  {
    var runner := w.computeds[c].runner;
    ConsistentSubscribersKnown(w.engine, target);
    var ns := Trigger(w.engine, target, op, key, isArray);
    UnsubscribedNotNotified(w.engine, runner, target, op, key, isArray);
    forall i | 0 <= i < |ns| ensures ns[i].delivery != ToScheduler(MarkDirty(c)) {
      assert NotifiedEffects(ns)[i] == ns[i].effect;
    }
  }

  /** Memoisation at work: reading a dirty computed at top level invokes
      its getter first; if the read completes, a second read invokes
      nothing and changes nothing. */
  lemma ComputedReadTwice(w: World, c: Oid, fuel: nat)
    requires Inv(w) && c in w.computeds && w.engine.stack == []
    requires w.computeds[c].dirty && w.engine.effects[w.computeds[c].runner].active
    requires w.engine.effects[w.computeds[c].runner].raw == w.computeds[c].accessors.getter
    ensures var r1 := ReadComputedValue(w, c, fuel);
      r1.outcome.Normal? ==>
        && |r1.world.calls| > |w.calls|
        && r1.world.calls[|w.calls|] == w.computeds[c].accessors.getter
        && ReadComputedValue(r1.world, c, fuel) == Ran(r1.world, Normal)
  {
    var r1 := ReadComputedValue(w, c, fuel);
    if r1.outcome.Normal? {
      var runner := w.computeds[c].runner;
      assert fuel > 0;
      var x := Run(w, runner, fuel - 1);
      assert x.outcome.Normal?;
      assert x.world.calls[|w.calls|] == w.computeds[c].accessors.getter;
      var w1 := Cleaned(x.world, c);
      assert r1 == Ran(ChildRun(w1, runner), Normal);
      assert r1.world.calls == x.world.calls;
      assert !r1.world.computeds[c].dirty;
      assert r1.world.engine.stack == [];
      assert TrackChildRun(r1.world.engine, runner) == r1.world.engine;
      assert r1.world.(engine := r1.world.engine) == r1.world;
    }
  }
}
