/** The central invariant of the engine: the dependency store and the
    effects' `deps` lists are two views of one relation. Effect `e` is in
    the dep named by `d` exactly when `d` is in `e.deps`. Every bookkeeping
    step of effect.ts keeps it. */
module Consistency {
  import opened Values
  import opened Operations
  import opened Store
  import opened Effect

  /** `e` lists the dep named by `d` among its `deps`. */
  ghost predicate Lists(eng: Engine, e: EffectId, d: DepRef) {
    e in eng.effects && d in eng.effects[e].deps
  }

  ghost predicate Consistent(eng: Engine) {
    && ValidTargetMap(eng.targetMap)
    && eng.FreshAbove()
    && eng.StackKnown()
    && (forall e :: e in eng.effects ==> NoDup(eng.effects[e].deps))
    && (forall d, e :: e in Subscribers(eng.targetMap, d) <==> Lists(eng, e, d))
  }

  /** The initial engine: nothing registered, nothing running, tracking on. */
  const InitialEngine := Engine(map[], map[], [], true, 0)

  lemma InitialConsistent()
    ensures Consistent(InitialEngine)
  {
  }

  /** A consistent engine only holds registered effects in its deps, which
      is what `trigger` needs. */
  lemma ConsistentSubscribersKnown(eng: Engine, target: Oid)
    requires Consistent(eng)
    ensures eng.SubscribersKnown(target)
  {
    forall k, e | e in Subscribers(eng.targetMap, DepRef(target, k))
      ensures e in eng.effects
    {
      assert Lists(eng, e, DepRef(target, k));
    }
  }

  /** `track` keeps the invariant; the dep it records is listed in the
      running effect's `deps` exactly once. */
  lemma TrackKeepsConsistent(eng: Engine, target: Oid, op: OperationType, key: Value)
    requires Consistent(eng)
    ensures var r := Track(eng, target, op, key).engine;
      && Consistent(r)
      && (eng.shouldTrack && |eng.stack| > 0 ==>
            var e := eng.stack[|eng.stack| - 1];
            var d := DepRef(target, TrackKey(op, key));
            && e in Subscribers(r.targetMap, d)
            && (forall i, j :: 0 <= i < j < |r.effects[e].deps| ==> r.effects[e].deps[i] != r.effects[e].deps[j])
            && d in r.effects[e].deps)
  {
    if eng.shouldTrack && |eng.stack| > 0 {
      var e := eng.stack[|eng.stack| - 1];
      var d := DepRef(target, TrackKey(op, key));
      if e in Subscribers(eng.targetMap, d) {
        TrackKnownKeepsConsistent(eng, target, op, key);
      } else {
        TrackNewKeepsConsistent(eng, target, op, key);
      }
    }
  }

  /** `track` when the running effect is already in the dep. */
  lemma TrackKnownKeepsConsistent(eng: Engine, target: Oid, op: OperationType, key: Value)
    requires Consistent(eng) && eng.shouldTrack && |eng.stack| > 0
    requires eng.stack[|eng.stack| - 1] in Subscribers(eng.targetMap, DepRef(target, TrackKey(op, key)))
    ensures var r := Track(eng, target, op, key).engine;
      Consistent(r) && Lists(r, eng.stack[|eng.stack| - 1], DepRef(target, TrackKey(op, key)))
  {
    var r := Track(eng, target, op, key).engine;
    var e := eng.stack[|eng.stack| - 1];
    var d := DepRef(target, TrackKey(op, key));
    assert Lists(eng, e, d);
    forall d', x ensures x in Subscribers(r.targetMap, d') <==> Lists(r, x, d') {
      if d' == d {
        assert Subscribers(r.targetMap, d') == Subscribers(eng.targetMap, d');
      }
    }
  }

  /** `track` when the running effect is not yet in the dep. */
  lemma TrackNewKeepsConsistent(eng: Engine, target: Oid, op: OperationType, key: Value)
    requires Consistent(eng) && eng.shouldTrack && |eng.stack| > 0
    requires eng.stack[|eng.stack| - 1] !in Subscribers(eng.targetMap, DepRef(target, TrackKey(op, key)))
    ensures var r := Track(eng, target, op, key).engine;
      Consistent(r) && Lists(r, eng.stack[|eng.stack| - 1], DepRef(target, TrackKey(op, key)))
  {
    var r := Track(eng, target, op, key).engine;
    var e := eng.stack[|eng.stack| - 1];
    var d := DepRef(target, TrackKey(op, key));
    SubscribedConsistent(eng, r, e, d);
  }

  /** Adding `e` to the dep `d` and `d` to the end of `e.deps`, when neither
      was there, keeps the invariant. */
  lemma SubscribedConsistent(eng: Engine, r: Engine, e: EffectId, d: DepRef)
    requires Consistent(eng) && e in eng.effects && e !in Subscribers(eng.targetMap, d)
    requires ValidTargetMap(r.targetMap)
    requires r.stack == eng.stack && r.nextEffect == eng.nextEffect
    requires r.effects == eng.effects[e := eng.effects[e].(deps := eng.effects[e].deps + [d])]
    requires forall x :: x in Subscribers(r.targetMap, d) <==> x in Subscribers(eng.targetMap, d) || x == e
    requires forall d' :: d' != d ==> Subscribers(r.targetMap, d') == Subscribers(eng.targetMap, d')
    ensures Consistent(r) && Lists(r, e, d)
  {
    assert !Lists(eng, e, d);
    var deps' := eng.effects[e].deps + [d];
    assert NoDup(deps');
    forall d', x ensures x in Subscribers(r.targetMap, d') <==> Lists(r, x, d') {
      if x == e {
        assert d' in deps' <==> d' in eng.effects[e].deps || d' == d;
      }
    }
  }

  /** After `cleanup(e)` on a consistent engine, `e` is in no dep at all and
      lists none; the invariant still holds. */
  lemma CleanupKeepsConsistent(eng: Engine, e: EffectId)
    requires Consistent(eng) && e in eng.effects
    ensures var r := Cleanup(eng, e);
      && Consistent(r)
      && r.effects[e].deps == []
      && (forall d :: e !in Subscribers(r.targetMap, d))
  {
    var r := Cleanup(eng, e);
    forall d, x ensures x in Subscribers(r.targetMap, d) <==> Lists(r, x, d) {
      if x == e {
        assert x in Subscribers(eng.targetMap, d) ==> Lists(eng, x, d);
      } else {
        assert Lists(r, x, d) <==> Lists(eng, x, d);
      }
    }
    forall d ensures e !in Subscribers(r.targetMap, d) {
      assert !Lists(r, e, d);
    }
  }

  /** `stop` keeps the invariant, and a stopped effect is in no dep. */
  lemma StopKeepsConsistent(eng: Engine, e: EffectId)
    requires Consistent(eng) && e in eng.effects
    ensures var r := Stop(eng, e).engine;
      && Consistent(r)
      && (eng.effects[e].active ==> forall d :: e !in Subscribers(r.targetMap, d))
  {
    var r := Stop(eng, e).engine;
    if eng.effects[e].active {
      CleanupKeepsConsistent(eng, e);
      var c := Cleanup(eng, e);
      assert r == c.(effects := c.effects[e := c.effects[e].(active := false)]);
      forall d, x ensures x in Subscribers(r.targetMap, d) <==> Lists(r, x, d) {
        assert Lists(r, x, d) <==> Lists(c, x, d);
      }
    }
  }

  /** `stop` is idempotent: a second call changes nothing and fires no
      `onStop`. */
  lemma StopIdempotent(eng: Engine, e: EffectId)
    requires e in eng.effects
    ensures var once := Stop(eng, e);
      Stop(once.engine, e) == Stopped(once.engine, false)
  {
  }

  /** The set-up half of `run` keeps the invariant. */
  lemma RunEnterKeepsConsistent(eng: Engine, e: EffectId)
    requires Consistent(eng) && e in eng.effects
    ensures RunEnter(eng, e).Entered? ==> Consistent(RunEnter(eng, e).engine)
  {
    if RunEnter(eng, e).Entered? {
      CleanupKeepsConsistent(eng, e);
      var c := Cleanup(eng, e);
      var r := RunEnter(eng, e).engine;
      assert r == c.(stack := c.stack + [e]);
      forall d, x ensures x in Subscribers(r.targetMap, d) <==> Lists(r, x, d) {
        assert Lists(r, x, d) <==> Lists(c, x, d);
      }
    }
  }

  /** The pop in `run`'s `finally` keeps the invariant. */
  lemma RunExitKeepsConsistent(eng: Engine)
    requires Consistent(eng) && |eng.stack| > 0
    ensures Consistent(RunExit(eng))
  {
    var r := RunExit(eng);
    forall d, x ensures x in Subscribers(r.targetMap, d) <==> Lists(r, x, d) {
      assert Lists(r, x, d) <==> Lists(eng, x, d);
    }
  }

  /** Registering an effect keeps the invariant: the new handle lists no
      dep and is in none. */
  lemma RegisterKeepsConsistent(eng: Engine, f: Runnable, options: EffectOptions)
    requires Consistent(eng)
    requires f.EffectHandle? ==> f.handle in eng.effects
    ensures Consistent(Register(eng, f, options).engine)
  {
    var reg := Register(eng, f, options);
    var r := reg.engine;
    forall d, x ensures x in Subscribers(r.targetMap, d) <==> Lists(r, x, d) {
      if x == reg.handle {
        assert x !in eng.effects;
        assert !Lists(eng, x, d);
      } else {
        assert Lists(r, x, d) <==> Lists(eng, x, d);
      }
    }
    assert r.StackKnown();
  }

  /** `createReactiveObject`'s entry for a new target keeps the invariant. */
  lemma EnsureTargetKeepsConsistent(eng: Engine, target: Oid)
    requires Consistent(eng)
    ensures Consistent(eng.(targetMap := EnsureTarget(eng.targetMap, target)))
  {
    var r := eng.(targetMap := EnsureTarget(eng.targetMap, target));
    forall d, x ensures x in Subscribers(r.targetMap, d) <==> Lists(r, x, d) {
      assert Lists(r, x, d) <==> Lists(eng, x, d);
    }
  }

  /** Pausing or resuming tracking keeps the invariant. */
  lemma SetTrackingKeepsConsistent(eng: Engine, on: bool)
    requires Consistent(eng)
    ensures Consistent(SetTracking(eng, on))
  {
    var r := SetTracking(eng, on);
    forall d, x ensures x in Subscribers(r.targetMap, d) <==> Lists(r, x, d) {
      assert Lists(r, x, d) <==> Lists(eng, x, d);
    }
  }

  /** An effect that lists no dep is never notified: in particular a stopped
      effect no longer reacts to any write. */
  lemma UnsubscribedNotNotified(eng: Engine, e: EffectId, target: Oid, op: OperationType, key: Value, isArray: bool)
    requires Consistent(eng)
    requires e in eng.effects && eng.effects[e].deps == []
    ensures eng.SubscribersKnown(target)
    ensures e !in NotifiedEffects(Trigger(eng, target, op, key, isArray))
  {
    ConsistentSubscribersKnown(eng, target);
    forall d ensures e !in Subscribers(eng.targetMap, d) {
      assert !Lists(eng, e, d);
    }
  }
}
