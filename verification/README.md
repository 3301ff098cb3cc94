# A Dafny model of the early Vue 3 reactivity core

This project models the core of the `reactivity` package in Vue 3's
pre-release sources, which is the engine behind automatic re-rendering. The
package has five parts:

- **The effect engine** (`effect.ts`). An *effect* is a function the engine
  runs while recording what it reads. `track` stores "this effect read key k
  of object o" in the dependency store `targetMap`. `trigger` finds every
  effect that depends on a written key and re-runs or schedules it, running
  computed runners before plain effects. `run` guards against re-entry and
  re-discovers dependencies on each run through `cleanup`. `stop` detaches an
  effect.
- **The wrapper tables** (`reactive.ts`). `reactive` and `readonly` hand out
  one proxy per raw object and mode. `toRaw`, `isReactive` and `isReadonly`
  answer from those tables. `markReadonly` and `markNonReactive` change what
  later wrapping does.
- **The proxy traps** for plain objects and arrays (`baseHandlers.ts`), and
  **the instrumented methods** for Map, Set, WeakMap and WeakSet
  (`collectionHandlers.ts`). Each trap reports a read to `track` or a change
  to `trigger`. Values are wrapped lazily on the way out and made raw on the
  way in.
- **Refs** (`ref.ts`): single-slot reactive cells, and `toRefs`, which turns
  each property of an object into a forwarding ref.
- **Computed values** (`computed.ts`): a memoised getter. It is driven by a
  lazy effect whose scheduler only marks the value dirty. `trackChildRun`
  makes the effect that reads the value depend on everything the getter
  depends on.

Everything is written as immutable datatypes and pure functions.

- `Effect` holds the engine's bookkeeping. `Consistency` holds its central
  invariant: an effect is listed in a dep exactly when the dep is in that
  effect's `deps`, each dep at most once. There is one preservation lemma per
  operation.
- `Reactive`, `BaseHandlers`, `CollectionHandlers` and `Ref` are decision
  functions over a raw object's contents. They return the new contents, the
  `track`/`trigger` call they make (as data) and their result, and they
  thread the wrapper tables through.
- `Runtime` ties the engine to computed values. It runs effect bodies as
  scripts of reads, computed reads, nested calls and throws, and it delivers
  the notification list `trigger` computes. It records which raw functions
  were invoked, in order, not the values they compute.
- `Scenarios` works the "computed chain" example of the computed tests all
  the way through the runtime.

Two behaviours worth knowing. First, the readonly trap for plain objects
refuses a delete under the lock and still returns `true`, whereas the
readonly collection `delete` returns `false`. A plain description of the
package would say both report failure, but the model follows the code.
Second, the collection methods `set` and `delete` do not make their key raw
(see Findings). The model uses the corrected methods; the methods as
written are kept beside them.

Source paths below are relative to the repository root.

## Model

| member | source | states |
|---|---|---|
| Store.EnsureTarget | vue3/packages/reactivity/src/reactive.ts:138-140 | a target gets a deps map if it had none; an existing map is kept as it is; no subscription changes |
| Store.EnsureDep | vue3/packages/reactivity/src/effect.ts:176-186 | after the get-or-create steps of `track`, the dep for (target, key) exists and no subscription has changed |
| Store.AddSubscriber | vue3/packages/reactivity/src/effect.ts:188-192 | the named dep gains `e` (appended when new); every other dep is unchanged |
| Store.RemoveSubscriber | vue3/packages/reactivity/src/effect.ts:143 | the named dep loses `e`; every other dep and the map's shape are unchanged |
| Values.Remove | vue3/packages/reactivity/src/effect.ts:143 | `Set.delete` on an insertion-ordered set: exactly `x` leaves, there are still no duplicates, and deleting an absent member leaves the set as it was |
| Values.RemoveKeepsOrder | vue3/packages/reactivity/src/effect.ts:143 | deleting a member cuts it out at its position: the members before and after it keep their insertion order, so later notifications visit them as before |
| Values.Insert | vue3/packages/reactivity/src/effect.ts:190 | `Set.add` on an insertion-ordered set: `x` is appended exactly when absent |
| Effect.Register | vue3/packages/reactivity/src/effect.ts:67-83 | `effect(fn, options)` unwraps an effect to its raw function and creates a fresh, active handle with no deps and the given options; it runs the handle now exactly when `lazy` is not set; existing effects and the store are untouched |
| Effect.RegisterBrandsHandle | vue3/packages/reactivity/src/effect.ts:63-113 | `isEffect` is true for exactly the handles `effect()` created, never for a plain function; registering brands only the new handle, which runs the raw function behind its argument |
| Effect.RemoveFromDeps | vue3/packages/reactivity/src/effect.ts:139-147 | each listed dep becomes that dep with the effect deleted, its other subscribers in order; every other dep is unchanged |
| Effect.Cleanup | vue3/packages/reactivity/src/effect.ts:139-147 | `cleanup` deletes the effect from every dep in its `deps`, keeping the other subscribers in order, and empties `deps`; every other effect and every other dep is unchanged |
| Effect.Stop | vue3/packages/reactivity/src/effect.ts:85-93 | stopping an active effect deletes it from each of its deps, fires `onStop` if given and deactivates it; stopping an inactive one changes nothing; no other dep, no other effect, the stack, `shouldTrack` and the handle allocator never change |
| Effect.RunEnter | vue3/packages/reactivity/src/effect.ts:115-131 | the guard of `run`: an inactive effect calls its function without pushing or cleaning itself up, so its reads go to the caller's running effect; an active one already on the stack does nothing; otherwise it is cleaned up and pushed, and nothing else changes: the other effects, its own fields except `deps`, `shouldTrack` and the handle allocator |
| Effect.RunExit | vue3/packages/reactivity/src/effect.ts:132-135 | the `finally` of `run` pops exactly the top of the stack and nothing else |
| Effect.ActiveEffect | vue3/packages/reactivity/src/effect.ts:169-170 | the effect a read is attributed to is the top of the stack, if there is one |
| Effect.TrackKey | vue3/packages/reactivity/src/effect.ts:172-174 | an ITERATE read is recorded under `ITERATE_KEY`; any other read under its key |
| Effect.Track | vue3/packages/reactivity/src/effect.ts:160-204 | with tracking on and an effect running, that effect ends up in the dep of (target, key). If it was new there, the dep is appended to its `deps` and `onTrack` fires; otherwise nothing changes. Deps of other keys are untouched; with tracking paused or no effect running, nothing happens |
| Effect.SetTracking | vue3/packages/reactivity/src/effect.ts:149-157 | `pauseTracking`/`resumeTracking` set the flag and change nothing else |
| Effect.AddRunners | vue3/packages/reactivity/src/effect.ts:258-272 | the members of a dep are sorted into the computed-runner and plain sets by their `computed` flag; the sets stay duplicate-free, and their union grows by exactly the dep |
| Effect.AddAllRunners | vue3/packages/reactivity/src/effect.ts:225-230 | for CLEAR, every dep of the target is added: the union is exactly the effects in some dep |
| Effect.CollectRunners | vue3/packages/reactivity/src/effect.ts:213-243 | the runner sets of `trigger` hold exactly the subscribers of the notified keys (`NotifiedKeys`): all keys for CLEAR; otherwise the written key, plus `length`/`ITERATE_KEY` for ADD and DELETE; none for an unknown target |
| Effect.Deliveries | vue3/packages/reactivity/src/effect.ts:274-301 | each effect is delivered to its scheduler if it has one and run directly otherwise, with `onTrigger` fired if given, in order |
| Effect.NotifiedEffects | vue3/packages/reactivity/src/effect.ts:254-255 | the effects of a notification list, position by position |
| Effect.Trigger | vue3/packages/reactivity/src/effect.ts:207-256 | the notification list names exactly the subscribers of the notified keys, each once, with every computed runner before every plain effect, each delivered per its scheduler; it is empty for a target nobody read |
| Effect.ComputedFirst | vue3/packages/reactivity/src/effect.ts:254-255 | running `computedRunners` then `effects` visits every collected effect exactly once, computed runners first |
| Consistency.InitialConsistent | vue3/packages/reactivity/src/reactive.ts:28 | the empty store with no effects satisfies the invariant |
| Consistency.ConsistentSubscribersKnown | vue3/packages/reactivity/src/effect.ts:264-269 | under the invariant, every subscriber of a target's deps is a registered effect, so `trigger` can look each one up |
| Consistency.TrackKeepsConsistent | vue3/packages/reactivity/src/effect.ts:160-204 | `track` keeps the invariant, and afterwards the running effect lists the dep it read |
| Consistency.TrackKnownKeepsConsistent | vue3/packages/reactivity/src/effect.ts:188 | a read by an effect already in the dep keeps the invariant and lists the dep |
| Consistency.TrackNewKeepsConsistent | vue3/packages/reactivity/src/effect.ts:188-192 | a read by an effect new to the dep keeps the invariant and lists the dep |
| Consistency.SubscribedConsistent | vue3/packages/reactivity/src/effect.ts:190-192 | adding an effect to one dep while appending that dep to its `deps` keeps the invariant |
| Consistency.CleanupKeepsConsistent | vue3/packages/reactivity/src/effect.ts:139-147 | `cleanup` keeps the invariant and leaves the effect in no dep at all |
| Consistency.StopKeepsConsistent | vue3/packages/reactivity/src/effect.ts:85-93 | `stop` keeps the invariant, and a stopped effect is in no dep |
| Consistency.StopIdempotent | vue3/packages/reactivity/src/effect.ts:86 | stopping twice is stopping once: the second stop changes nothing and fires no `onStop` |
| Consistency.RunEnterKeepsConsistent | vue3/packages/reactivity/src/effect.ts:115-131 | entering a run keeps the invariant, and the pushed effect is in no dep |
| Consistency.RunExitKeepsConsistent | vue3/packages/reactivity/src/effect.ts:132-135 | popping the stack keeps the invariant |
| Consistency.RegisterKeepsConsistent | vue3/packages/reactivity/src/effect.ts:95-113 | registering a new effect keeps the invariant |
| Consistency.EnsureTargetKeepsConsistent | vue3/packages/reactivity/src/reactive.ts:138-140 | giving a target an empty deps map keeps the invariant |
| Consistency.SetTrackingKeepsConsistent | vue3/packages/reactivity/src/effect.ts:149-157 | pausing or resuming tracking keeps the invariant |
| Consistency.UnsubscribedNotNotified | vue3/packages/reactivity/src/effect.ts:207-256 | an effect with no deps is notified by no `trigger`, whatever the write |
| Reactive.EmptyRegistryValid | vue3/packages/reactivity/src/reactive.ts:33-43 | the empty tables are valid: mutually inverse, and no wrapper is itself wrapped |
| Reactive.Allocate | vue3/packages/reactivity/src/reactive.ts:132 | a new object takes the next identity and keeps the tables valid |
| Reactive.Record | vue3/packages/reactivity/src/reactive.ts:134-136 | recording a wrapper adds exactly one entry to each table of its mode and touches the other mode's tables nowhere |
| Reactive.CreateReactiveObject | vue3/packages/reactivity/src/reactive.ts:100-143 | a non-object comes back with the warning; an object with a wrapper in this mode returns that wrapper; a wrapper of this mode returns itself; an object that cannot be observed returns itself; otherwise a fresh proxy is recorded in both tables of the mode, and the target gets a deps map |
| Reactive.WrapsIffObservable | vue3/packages/reactivity/src/reactive.ts:49-56 | a raw object with no wrapper in the mode gets a fresh wrapper exactly when `canObserve` holds; otherwise it comes back as it is, with no warning and no change |
| Reactive.MakeReactive | vue3/packages/reactivity/src/reactive.ts:59-77 | `reactive` returns a readonly wrapper as it is, gives `readonly(x)` for a value marked readonly, and otherwise wraps in the mutable tables |
| Reactive.MakeReadonly | vue3/packages/reactivity/src/reactive.ts:79-96 | `readonly` replaces a reactive wrapper by its raw object, then wraps in the readonly tables |
| Reactive.Wrap | vue3/packages/reactivity/src/collectionHandlers.ts:14-15 | `toReactive`/`toReadonly`: objects go to `reactive`/`readonly`, and any other value passes through without a warning |
| Reactive.ToRaw | vue3/packages/reactivity/src/reactive.ts:153-155 | the raw object behind a reactive wrapper, then behind a readonly one; any other value is itself |
| Reactive.MarkReadonly | vue3/packages/reactivity/src/reactive.ts:157-160 | the value joins `readonlyValues` and is returned; a primitive makes `WeakSet.add` throw |
| Reactive.MarkNonReactive | vue3/packages/reactivity/src/reactive.ts:162-165 | the value joins `nonReactiveValues` and is returned; a primitive makes `WeakSet.add` throw |
| Reactive.CreateKeepsValid | vue3/packages/reactivity/src/reactive.ts:100-143 | `createReactiveObject`, called as `reactive` and `readonly` call it, keeps the tables valid and returns an existing object |
| Reactive.CreateFreshKeepsValid | vue3/packages/reactivity/src/reactive.ts:132-136 | recording a fresh proxy keeps the tables valid |
| Reactive.RecordFreshKeepsValid | vue3/packages/reactivity/src/reactive.ts:134-136 | a new reactive proxy for an unwrapped raw object keeps both tables inverse and disjoint |
| Reactive.RecordFreshReadonlyKeepsValid | vue3/packages/reactivity/src/reactive.ts:134-136 | the same for a new readonly proxy |
| Reactive.WrapKeepsValid | vue3/packages/reactivity/src/reactive.ts:59-96 | `reactive`, `readonly` and lazy wrapping keep the tables valid, never drop an object, and return an existing object |
| Reactive.ReadonlyKeepsValid | vue3/packages/reactivity/src/reactive.ts:79-96 | `readonly` keeps the tables valid, including when it is given a reactive wrapper |
| Reactive.WrapPreservesRaw | vue3/packages/reactivity/src/reactive.ts:153-155 | `toRaw(reactive(x)) == toRaw(x)` and `toRaw(readonly(x)) == toRaw(x)` |
| Reactive.ReadonlyPreservesRaw | vue3/packages/reactivity/src/reactive.ts:84-86 | `toRaw(readonly(x)) == toRaw(x)`, including for a reactive `x` |
| Reactive.CreatePreservesRaw | vue3/packages/reactivity/src/reactive.ts:114-136 | every branch of `createReactiveObject` returns a value with the raw object of its argument |
| Reactive.ExistingWrapperRaw | vue3/packages/reactivity/src/reactive.ts:114-117 | a recorded wrapper leads back to its raw object |
| Reactive.FreshWrapperRaw | vue3/packages/reactivity/src/reactive.ts:132-136 | a new wrapper leads back to the object it wraps |
| Reactive.ReactiveTwiceSameWrapper | vue3/packages/reactivity/__tests__/reactive.spec.ts:107-113 | `reactive(x)` twice gives the identical proxy, and the second call changes no table |
| Reactive.ReadonlyTwiceSameWrapper | vue3/packages/reactivity/src/reactive.ts:114-117 | `readonly(x)` twice gives the identical proxy, and the second call changes no table |
| Reactive.CreateTwice | vue3/packages/reactivity/src/reactive.ts:114-122 | `createReactiveObject` on the same target twice returns the same, with no change the second time |
| Reactive.ReactiveOfWrapper | vue3/packages/reactivity/__tests__/reactive.spec.ts:99-105 | `reactive(reactive(x)) == reactive(x)`, with no further change (see Left out for the marked-readonly case) |
| Reactive.ReactiveOfReactive | vue3/packages/reactivity/src/reactive.ts:120-122 | a reactive proxy given to `reactive` comes back as it is |
| Reactive.UnwrappedUnchanged | vue3/packages/reactivity/src/reactive.ts:108-126 | when `reactive` does not return a reactive proxy, it returned its argument and recorded nothing |
| Reactive.ReadonlyOfWrapper | vue3/packages/reactivity/src/reactive.ts:79-96 | `readonly(readonly(x)) == readonly(x)`, with no further change |
| Reactive.ReadonlyOfReadonly | vue3/packages/reactivity/src/reactive.ts:120-122 | a readonly proxy given to `readonly` comes back as it is |
| Reactive.ReadonlyUnwrappedUnchanged | vue3/packages/reactivity/src/reactive.ts:108-126 | when `readonly` does not return a readonly proxy, it recorded nothing and returned a value that is no reactive proxy |
| Reactive.ReadonlyOfReactiveWrapsRaw | vue3/packages/reactivity/src/reactive.ts:84-86 | `readonly(reactive(x))` is `readonly` of the raw object |
| Reactive.ReactiveOfMarkedIsReadonly | vue3/packages/reactivity/src/reactive.ts:65-67 | after `markReadonly(x)`, `reactive(x)` is `readonly(x)` |
| Reactive.MarkedNonReactiveStaysRaw | vue3/packages/reactivity/src/reactive.ts:49-56 | after `markNonReactive(x)`, wrapping an unwrapped object returns it unchanged in either mode, with no warning |
| Reactive.WrapperPredicates | vue3/packages/reactivity/src/reactive.ts:145-155 | `isReadonly` implies `isReactive`; `toRaw` fixes exactly the values that are not proxies, and the raw object of a proxy is no proxy |
| Reactive.ProxyPredicates | vue3/packages/reactivity/src/reactive.ts:145-151 | `isReadonly` holds exactly for the readonly wrapper of a raw object, and `isReactive` exactly for the wrapper of a raw object in either mode |
| Reactive.WrapInMode | vue3/packages/reactivity/src/reactive.ts:59-96 | an observable raw object comes back readonly from `readonly`, and reactive but not readonly from `reactive` unless it was marked readonly |
| Reactive.ExtendsTransitive | vue3/packages/reactivity/src/reactive.ts:33-39 | "only adds fresh wrappers" composes |
| Reactive.WrapExtends | vue3/packages/reactivity/src/reactive.ts:59-96 | wrapping only adds fresh proxies: no existing entry changes |
| Reactive.CreateExtends | vue3/packages/reactivity/src/reactive.ts:100-143 | `createReactiveObject` only adds a fresh proxy |
| Reactive.FreshWrapperExtends | vue3/packages/reactivity/src/reactive.ts:132-136 | recording a new proxy only adds a fresh entry |
| Reactive.ToRawStable | vue3/packages/reactivity/src/reactive.ts:153-155 | the raw object behind an existing value survives any later wrapping |
| Reactive.RawIsAllocated | vue3/packages/reactivity/src/reactive.ts:153-155 | the raw object behind an existing value exists |
| Reactive.ToRawOfWrap | vue3/packages/reactivity/src/collectionHandlers.ts:14-15 | lazy wrapping, in either mode, keeps the raw object |
| Reactive.WrapGrows | vue3/packages/reactivity/src/reactive.ts:132 | wrapping never reuses an identity |
| Reactive.CreateGrows | vue3/packages/reactivity/src/reactive.ts:132 | `createReactiveObject` never reuses an identity |
| Reactive.WrapQuiet | vue3/packages/reactivity/src/collectionHandlers.ts:14-15 | lazy wrapping never reports "cannot be made reactive": only objects reach `createReactiveObject` |
| Reactive.CreateQuiet | vue3/packages/reactivity/src/reactive.ts:108-113 | the warning is reported for non-objects only |
| Reactive.WrapFacts | vue3/packages/reactivity/src/reactive.ts:59-96 | wrapping an existing value: valid tables, only fresh proxies added, an existing result with the same raw object |
| BaseHandlers.PropertyGet | vue3/packages/reactivity/src/baseHandlers.ts:22-42 | a built-in symbol key is read untracked and unwrapped; a ref in the slot, or a wrapper of one, yields its `.value`; otherwise the read is tracked as GET on the key and the result is wrapped in the handler's mode; the brand read `isRef` reports through a wrapper in the slot is returned too |
| BaseHandlers.GetWrapsInMode | vue3/packages/reactivity/src/baseHandlers.ts:35-40 | a read keeps the raw identity of what is stored; an observable raw object comes out readonly from a readonly handler, and reactive (not readonly) from a mutable one |
| BaseHandlers.GetKeepsRaw | vue3/packages/reactivity/src/baseHandlers.ts:35-40 | the `get` trap keeps the tables valid, warns nothing, and returns a value with the slot's raw object |
| BaseHandlers.PropertySet | vue3/packages/reactivity/src/baseHandlers.ts:44-85 | the raw value is stored; a ref in the slot (or a wrapper of one) receives a non-ref value instead. ADD is reported exactly for a new key and SET exactly for a changed value, and only when the receiver's raw object is the target; the result is the host's answer; the brand reads of both `isRef` tests are returned, and with valid tables only the old value's can report one |
| BaseHandlers.DeleteProperty | vue3/packages/reactivity/src/baseHandlers.ts:87-100 | DELETE is reported exactly when the host deleted a key that existed; the result is the host's answer |
| BaseHandlers.PropertyHas | vue3/packages/reactivity/src/baseHandlers.ts:102-106 | `in` is tracked as HAS on the key and answers key membership |
| BaseHandlers.OwnKeys | vue3/packages/reactivity/src/baseHandlers.ts:108-112 | key enumeration is tracked as ITERATE and yields exactly the own keys |
| BaseHandlers.ReadonlySet | vue3/packages/reactivity/src/baseHandlers.ts:125-137 | under the lock a readonly write is refused; otherwise it is the mutable `set` |
| BaseHandlers.ReadonlyDeleteProperty | vue3/packages/reactivity/src/baseHandlers.ts:139-153 | under the lock a readonly delete is refused; otherwise it is the mutable `deleteProperty` |
| BaseHandlers.LockedAndRefWritesKeepProps | vue3/packages/reactivity/src/baseHandlers.ts:54-57 | a locked readonly write or delete leaves the target alone and returns true (delete included); a write through a ref leaves the slot holding that ref |
| BaseHandlers.SetTriggersIffChanged | vue3/packages/reactivity/src/baseHandlers.ts:61-82 | a stored write reports a call exactly when it changed the target: ADD exactly when it created the key, SET exactly when it replaced a different value |
| BaseHandlers.SetThenRead | vue3/packages/reactivity/src/baseHandlers.ts:50-59 | the raw value written is what the target holds, never a proxy; `has` sees the key; repeating the write reports nothing and changes nothing |
| BaseHandlers.AddThenDelete | vue3/packages/reactivity/src/baseHandlers.ts:77-96 | adding a new key, then deleting it, reports ADD then DELETE and restores the target; the key set grows by that key and shrinks back |
| BaseHandlers.DeleteTriggersIffChanged | vue3/packages/reactivity/src/baseHandlers.ts:87-99 | an accepted delete reports DELETE exactly when it changed the target, and afterwards `has` is false |
| CollectionHandlers.MapGet | vue3/packages/reactivity/src/collectionHandlers.ts:17-30 | `get` reads under the raw key, is tracked as GET on the raw key, and wraps the result in the wrapper's mode |
| CollectionHandlers.CollectionHas | vue3/packages/reactivity/src/collectionHandlers.ts:32-43 | `has` is tracked as HAS on the raw key and answers membership of the raw key |
| CollectionHandlers.CollectionSize | vue3/packages/reactivity/src/collectionHandlers.ts:45-54 | `size` is tracked as ITERATE and equals the number of distinct keys |
| CollectionHandlers.SizeIsKeyCount | vue3/packages/reactivity/src/collectionHandlers.ts:53 | the insertion-ordered key list is as long as the key set is large |
| CollectionHandlers.SetAddAsWritten | vue3/packages/reactivity/src/collectionHandlers.ts:56-80 | `add` as written: on a WeakSet a value that is no object throws before anything happens; otherwise the raw value joins, ADD is reported when it was absent, and the raw target is returned |
| CollectionHandlers.MapSetAsWritten | vue3/packages/reactivity/src/collectionHandlers.ts:82-116 | `set` as written: on a WeakMap a key that is no object throws before anything happens; otherwise the key is used as given, the value is made raw, a call is reported only when the value differs from the old one (undefined for a new key), and the raw target is returned |
| CollectionHandlers.DeleteEntryAsWritten | vue3/packages/reactivity/src/collectionHandlers.ts:118-141 | `delete` as written: the key is used as given, and DELETE is reported exactly when it was present |
| CollectionHandlers.SetAdd | vue3/packages/reactivity/src/collectionHandlers.ts:56-80 | corrected `add`: the same TypeError on a WeakSet, otherwise the same contents and report, and the wrapper it was called on is returned, so that chained calls stay observed |
| CollectionHandlers.MapSet | vue3/packages/reactivity/src/collectionHandlers.ts:82-116 | corrected `set`: on a WeakMap a raw key that is no object throws; otherwise it returns the wrapper it was called on and warns nothing; its contents and reports are stated by the lemmas below |
| CollectionHandlers.DeleteEntry | vue3/packages/reactivity/src/collectionHandlers.ts:118-141 | corrected `delete` answers whether the raw key was present |
| CollectionHandlers.CollectionClear | vue3/packages/reactivity/src/collectionHandlers.ts:143-168 | `clear` empties the collection and reports CLEAR exactly when it was not empty; it returns undefined |
| CollectionHandlers.ReadonlyMethod | vue3/packages/reactivity/src/collectionHandlers.ts:250-273 | under the lock a readonly write warns and returns false for `delete` and the receiver otherwise, changing nothing; without the lock it is the mutable method |
| CollectionHandlers.MapSetThenGet | vue3/packages/reactivity/src/collectionHandlers.ts:17-43 | whatever key (raw or proxy) a value is written under, once the write is accepted `has` with that key is true and `get` with that key returns the written value's raw object |
| CollectionHandlers.WritesTriggerIffChanged | vue3/packages/reactivity/src/collectionHandlers.ts:82-116 | `set` reports a call exactly when it changed the contents: ADD exactly when the key is new, SET exactly when a different value is replaced; `add` on a Set likewise; a rejected write changes nothing and reports nothing |
| CollectionHandlers.WeakWritesRejectPrimitives | vue3/packages/reactivity/src/collectionHandlers.ts:56-92 | on a WeakMap or WeakSet, `set` and `add`, as written and corrected, throw exactly for a key that is no object, before storing or reporting anything; on a Map or Set they never throw |
| CollectionHandlers.DeleteAndClearTriggerIffChanged | vue3/packages/reactivity/src/collectionHandlers.ts:118-168 | `delete` reports exactly when it removed a key, after which `has` is false; `clear` reports exactly when it removed something |
| CollectionHandlers.NoDupCardinality | vue3/packages/reactivity/src/collectionHandlers.ts:53 | a duplicate-free sequence has as many elements as its set |
| CollectionHandlers.LockedWritesChangeNothing | vue3/packages/reactivity/src/collectionHandlers.ts:257-267 | a locked `add`, `set`, `delete` or `clear` leaves the contents, reports nothing, warns, and returns false for `delete` and the receiver otherwise |
| CollectionHandlers.WrapperKeyLostAsWritten | vue3/packages/reactivity/src/collectionHandlers.ts:82-92 | as written, a value set under a proxy key is found by neither `has` nor `get` with that key; the corrected `set` finds it |
| CollectionHandlers.NewUndefinedEntryUnreportedAsWritten | vue3/packages/reactivity/src/collectionHandlers.ts:94-113 | as written, setting a new key to undefined grows `size` from 0 to 1 yet reports nothing; the corrected `set` reports ADD |
| CollectionHandlers.ChainedWriteUnobservedAsWritten | vue3/packages/reactivity/src/collectionHandlers.ts:67-92 | as written, `set` and `add` on a proxy return the raw target, which is not a proxy; the corrected ones return the proxy |
| CollectionHandlers.InnerItems | vue3/packages/reactivity/src/collectionHandlers.ts:212-216 | the native iterator yields one item per key in insertion order: `[key, value]` pairs for `entries` and a Map's `[Symbol.iterator]`, keys for `keys`, values otherwise |
| CollectionHandlers.WrapItem | vue3/packages/reactivity/src/collectionHandlers.ts:237 | an item stays a pair exactly when it was one |
| CollectionHandlers.WrapItemKeepsRaw | vue3/packages/reactivity/src/collectionHandlers.ts:237 | wrapping an item keeps the tables valid, only adds proxies, and keeps the raw objects of both halves |
| CollectionHandlers.WrapPairKeepsRaw | vue3/packages/reactivity/src/collectionHandlers.ts:237 | wrapping the key, then the value, of a pair keeps both raw objects |
| CollectionHandlers.WrapNext | vue3/packages/reactivity/src/collectionHandlers.ts:229-240 | `next()` passes a finished result on untouched and wraps every yielded value otherwise |
| CollectionHandlers.DonePassesThrough | vue3/packages/reactivity/src/collectionHandlers.ts:233-234 | a finished result passes through with the tables unchanged |
| CollectionHandlers.WrapItems | vue3/packages/reactivity/src/collectionHandlers.ts:229-240 | a run of `next()` calls yields as many items as the native iterator, pairs where it yields pairs |
| CollectionHandlers.WrapItemsKeepRaw | vue3/packages/reactivity/src/collectionHandlers.ts:229-240 | every item of a run comes out with its raw objects intact, and the tables stay valid |
| CollectionHandlers.ItemsStable | vue3/packages/reactivity/src/reactive.ts:153-155 | the raw objects behind earlier items survive later wrapping |
| CollectionHandlers.RawItemStable | vue3/packages/reactivity/src/reactive.ts:153-155 | the raw objects behind one item survive later wrapping |
| CollectionHandlers.ConsRaw | vue3/packages/reactivity/src/collectionHandlers.ts:229-240 | a wrapped head and a wrapped tail together carry the raw objects of the whole run |
| CollectionHandlers.IterateMethod | vue3/packages/reactivity/src/collectionHandlers.ts:202-248 | `keys`/`values`/`entries`/`[Symbol.iterator]` are tracked as ITERATE and yield one item per key |
| CollectionHandlers.IterationYieldsEntries | vue3/packages/reactivity/src/collectionHandlers.ts:202-248 | position by position, the raw objects behind the i-th yielded item are the i-th key (and its value) in insertion order |
| CollectionHandlers.ForEachItems | vue3/packages/reactivity/src/collectionHandlers.ts:191-195 | the callback receives the value first, then the key, for each entry in insertion order |
| CollectionHandlers.ForEach | vue3/packages/reactivity/src/collectionHandlers.ts:170-200 | `forEach` is tracked as ITERATE and calls the callback once per entry |
| CollectionHandlers.ForEachYieldsEntries | vue3/packages/reactivity/src/collectionHandlers.ts:170-200 | the i-th callback gets a value and a key whose raw objects are the i-th entry's |
| CollectionHandlers.Resolve | vue3/packages/reactivity/src/collectionHandlers.ts:314-328 | a property comes from the instrumentation exactly when the table has it and `key in target` holds |
| CollectionHandlers.InstrumentedMembers | vue3/packages/reactivity/src/collectionHandlers.ts:314-328 | each class gets exactly its own native methods instrumented: a Map has no `add`, a Set no `get`/`set`, and the weak collections have no `size` or iteration |
| Ref.TestRef | vue3/packages/reactivity/src/ref.ts:51-53 | `isRef(v)` is true exactly for a branded object or a wrapper of one; reading the brand through a wrapper over a plain object or array tracks GET on `refSymbol` of the raw object, and through any other value tracks nothing |
| Ref.WrapKeepsRefness | vue3/packages/reactivity/src/ref.ts:51-53 | wrapping a value, in either mode, never changes whether `isRef` holds for it |
| Ref.ProxyOfRefIsRef | vue3/packages/reactivity/src/ref.ts:26-30 | `isRef(reactive(r))` and `isRef(readonly(r))` are true for a ref `r` and track GET on `refSymbol` of `r`; `ref()` returns such a wrapper as it is |
| Ref.Convert | vue3/packages/reactivity/src/ref.ts:19 | `convert` makes objects reactive and passes other values through with no warning; the raw object is kept and the tables stay valid |
| Ref.MakeRef | vue3/packages/reactivity/src/ref.ts:26-48 | `ref(x)` returns a ref, or a wrapper of a ref, as it is; otherwise it stores the converted value in a fresh, branded ref object; the brand read `isRef(x)` reported is returned |
| Ref.RefOfRef | vue3/packages/reactivity/src/ref.ts:28-30 | `ref(ref(x))` is `ref(x)`, with no further change; the second call reports a brand read only when the first returned a wrapper |
| Ref.RefHoldsConverted | vue3/packages/reactivity/src/ref.ts:32 | a new ref holds its value's raw object, as a reactive proxy when that is an observable raw object |
| Ref.RefGet | vue3/packages/reactivity/src/ref.ts:35-39 | reading `.value` of a ref tracks GET on key `''` of the ref and returns the slot; a proxy ref reads `object[key]` |
| Ref.RefSet | vue3/packages/reactivity/src/ref.ts:40-45 | writing `.value` converts the value, stores it and triggers SET on `''` without comparing; a proxy ref writes `object[key]` |
| Ref.RefSetThenGet | vue3/packages/reactivity/src/ref.ts:35-45 | a written value reads back with its raw object; the write reports SET on `''` even when the value did not change |
| Ref.ProxyRefForwards | vue3/packages/reactivity/src/ref.ts:65-78 | a proxy ref reads and writes the same property of its source object, whatever the value |
| Ref.ToRefs | vue3/packages/reactivity/src/ref.ts:55-63 | `toRefs` returns a fresh object with exactly one property per enumerated key |
| Ref.ToRefsValid | vue3/packages/reactivity/src/ref.ts:55-63 | `toRefs` only allocates, so the wrapper tables stay valid |
| Ref.ProxyRefsValid | vue3/packages/reactivity/src/ref.ts:59-61 | the loop of `toRefs` keeps the wrapper tables valid |
| Ref.ProxyRefs | vue3/packages/reactivity/src/ref.ts:59-61 | one fresh, distinct proxy ref per key (the last one wins for a repeated key); existing cells are untouched |
| Ref.ToRefsForwards | vue3/packages/reactivity/src/ref.ts:55-78 | every property of the result is a distinct, fresh ref that reads and writes the same key of the source object |
| Computed.MakeComputed | vue3/packages/reactivity/src/computed.ts:27-58 | `computed` registers a lazy, computed-flagged runner around the getter, whose scheduler marks this ref dirty; the getter is not called, and the value starts dirty |
| Computed.MakeComputedKeepsConsistent | vue3/packages/reactivity/src/computed.ts:49-58 | registering the runner keeps the engine invariant |
| Computed.ReadValue | vue3/packages/reactivity/src/computed.ts:65-70 | a read runs the runner exactly when dirty, and otherwise uses the cached value |
| Computed.Refresh | vue3/packages/reactivity/src/computed.ts:67-69 | after the runner returns, the value is cached and clean |
| Computed.MarkedDirty | vue3/packages/reactivity/src/computed.ts:55-57 | the scheduler sets `dirty` and nothing else |
| Computed.CachedUntilDirty | vue3/packages/reactivity/src/computed.ts:46-70 | once refreshed, reads use the cache until the scheduler marks it dirty; then the next read runs the runner |
| Computed.WriteValue | vue3/packages/reactivity/src/computed.ts:31-44 | writing a getter-only computed warns, and writing one with `set` calls it with the value; the state never changes |
| Computed.AddParentTo | vue3/packages/reactivity/src/computed.ts:102-109 | one step of `trackChildRun` adds the parent to the dep, and the dep to the parent's `deps`, only when it was missing |
| Computed.AddParent | vue3/packages/reactivity/src/computed.ts:100-110 | after the loop, the parent is in exactly the deps it was in plus the child's |
| Computed.TrackChildRun | vue3/packages/reactivity/src/computed.ts:93-112 | with an effect running, it joins every dep of the child runner and nothing else changes; with none, nothing happens; `shouldTrack` is not consulted |
| Computed.AddParentToKeepsConsistent | vue3/packages/reactivity/src/computed.ts:104-109 | one step keeps the engine invariant and leaves the dep listed |
| Computed.AddParentKeepsConsistent | vue3/packages/reactivity/src/computed.ts:100-110 | the loop keeps the invariant and lists every dep of the child |
| Computed.TrackChildRunKeepsConsistent | vue3/packages/reactivity/src/computed.ts:93-112 | `trackChildRun` keeps the invariant; the parent lists each dep of the child, none twice |
| Runtime.Run | vue3/packages/reactivity/src/effect.ts:115-137 | a run changes only effects' deps, turns computed values only from dirty to clean, appends to the call log and restores the stack. An effect already running does nothing; otherwise its raw function is invoked first |
| Runtime.ReadComputedValue | vue3/packages/reactivity/src/computed.ts:65-86 | a completed read leaves the value clean; a clean value is read without invoking anything, by `trackChildRun` alone; a throwing getter leaves it dirty |
| Runtime.Deliver | vue3/packages/reactivity/src/effect.ts:245-255 | delivering a notification list in order keeps the invariant and the stack, and leaves clean any computed value whose scheduler it does not name |
| Runtime.SparesTail | vue3/packages/reactivity/src/effect.ts:254-255 | a computed value spared by the head and by the rest of a list is spared by the whole |
| Runtime.Notify | vue3/packages/reactivity/src/effect.ts:296-300 | a notification runs a plain effect, marks the ref of a computed runner dirty without invoking anything, or hands the effect to a user scheduler |
| Runtime.MarkComputedDirty | vue3/packages/reactivity/src/computed.ts:55-57 | the computed scheduler marks its own ref dirty and no other |
| Runtime.ScheduleEffect | vue3/packages/reactivity/src/effect.ts:296-297 | a user scheduler receives the effect; nothing else changes |
| Runtime.Write | vue3/packages/reactivity/src/effect.ts:207-256 | a reported write computes the notification list once and delivers it, keeping the invariant and the stack |
| Runtime.Report | vue3/packages/reactivity/src/baseHandlers.ts:35-82 | a trap's reported read goes to `track` and its reported write to `trigger`; no report changes nothing |
| Runtime.CreateEffect | vue3/packages/reactivity/src/effect.ts:67-83 | `effect()` adds exactly one new handle around the raw function and, unless lazy, invokes that function at once |
| Runtime.RegisterInv | vue3/packages/reactivity/src/effect.ts:95-113 | registering keeps the runtime invariant, and the new handle is not running |
| Runtime.CreateComputed | vue3/packages/reactivity/src/computed.ts:27-58 | `computed()` adds one new, dirty ref with a new runner, and invokes nothing |
| Runtime.StopEffect | vue3/packages/reactivity/src/effect.ts:85-93 | `stop` on the world keeps the invariant and changes exactly what `stop` on the engine changes: the effect is deactivated with no deps left if it was active; other effects, `shouldTrack`, the allocator, the computeds, the call log, the function bodies and the scheduled list stay as they were |
| Runtime.StoppedRunGainsNoDeps | vue3/packages/reactivity/src/effect.ts:117-119 | calling a stopped effect invokes its raw function without pushing it, and the effect gains no dep |
| Runtime.StoppedEffectNeverNotified | vue3/packages/reactivity/__tests__/effect.spec.ts:634-650 | a stopped effect is notified by no write, and no write changes it |
| Runtime.StoppedComputedStaysClean | vue3/packages/reactivity/__tests__/computed.spec.ts:121-134 | once its runner is stopped, a clean computed value is never marked dirty by a write |
| Runtime.ComputedReadTwice | vue3/packages/reactivity/__tests__/computed.spec.ts:22-50 | reading a dirty computed value at top level invokes its getter; once that read completes, a second read invokes nothing and changes nothing |
| Scenarios.SetupSettles | vue3/packages/reactivity/__tests__/computed.spec.ts:74-89 | creating `c1`, `c2` and the effect invokes the effect, getter 2 and getter 1 once each, in that order, and leaves all three subscribed to `value.foo` with both values clean |
| Scenarios.WriteSettles | vue3/packages/reactivity/__tests__/computed.spec.ts:90-94 | writing `value.foo` in the settled state invokes the effect, getter 2 and getter 1 exactly once more each, and returns to the same settled state |
| Scenarios.RunEffect2 | vue3/packages/reactivity/__tests__/computed.spec.ts:84-86 | running the effect from either starting state reads `c2`, which runs getter 2, which reads `c1`, which runs getter 1, and ends settled |
| Scenarios.RunRunner0 | vue3/packages/reactivity/src/computed.ts:65-70 | running `c1`'s runner invokes getter 1, which subscribes it to `value.foo` |
| Scenarios.RunRunner1 | vue3/packages/reactivity/src/computed.ts:65-86 | running `c2`'s runner invokes getter 2 and then getter 1, and `trackChildRun` subscribes it to `value.foo` too |

## Left out

- Prototype chains, accessor properties and the `receiver` argument are not
  modelled. Whether the receiver's raw object is the target is a parameter
  of `BaseHandlers.PropertySet`, and so is the host's answer from
  `Reflect.set`/`Reflect.deleteProperty`.
- Array exotic behaviour is not modelled: implicit `length` changes and
  sparse arrays. Whether a target is an array is a parameter of
  `Effect.Trigger`.
- `!==` is value inequality on the modelled values. NaN and floating point
  are not modelled.
- `targetMap` and the wrapper tables are `WeakMap`s; garbage collection of
  dead targets is not modelled. Deps are never deleted in the source, so a
  dep is named by its (target, key) pair.
- The `ownKeys` trap returns a set of keys; the host's key order is not
  modelled.
- Developer-mode warnings are a boolean or a datatype case, not their text.
  `onTrack`, `onTrigger` and `onStop` are recorded as "was called" flags;
  their debugger payloads (`extraInfo`, `oldTarget`) are not modelled.
- The `LOCKED` flag comes from `lock.ts`, which is not part of this model.
  It is a boolean parameter of the readonly traps.
- `canObserve` reads `_isVue`, `_isVNode` and the `toTypeString` class.
  These are the `internal` set and the `ObjectKind` of an object.
- `key in target` in `createInstrumentationGetter` is a parameter of
  `CollectionHandlers.Resolve`. `InstrumentedMembers` fills it from each
  class's native members.
- Effect bodies are scripts of reads, computed reads, nested effect calls
  and throws. They write nothing, and the values they compute are not
  modelled: the runtime records which raw functions were invoked, in order.
- `Runtime.Run`, `Runtime.Exec`, `Runtime.Step` and
  `Runtime.ReadComputedValue` take a `fuel` bound on the nesting of runs.
  Running out is reported as its own outcome, so behaviour beyond the bound
  is not described.
- An unknown effect handle or computed ref in a script is skipped.
  `Runtime.Step` and `Runtime.Body` treat an unknown function as one that
  does nothing.
- Iterators are modelled in two ways. `CollectionHandlers.IterateMethod`
  runs one to the end, and `CollectionHandlers.WrapNext` is a single
  `next()` call. Interleaving writes between `next()` calls is not modelled,
  nor is the iterator's own `[Symbol.iterator]` returning itself.
- The `UnwrapRef` and `UnwrapNestedRefs` types of `ref.ts` are types only
  and have no behaviour to model.
- `@vue/shared` (`isObject`, `hasOwn`, `capitalize`, `toTypeString`) is not
  part of this model. Its behaviour is written out where it is used.
- Reactive.ReactiveOfWrapper: `reactive(reactive(x)) == reactive(x)` is
  stated only for an `x` not marked readonly, and only when the proxy
  itself was not marked readonly. In those cases `reactive` follows the
  `readonly` branch, which `ReactiveOfMarkedIsReadonly` covers.
- CollectionHandlers.MapSet and CollectionHandlers.DeleteEntry: their own
  contracts state only the result and, for `set`, when it throws. Their
  effect on the contents and on what they report is stated by
  `MapSetThenGet`, `WritesTriggerIffChanged`, `WeakWritesRejectPrimitives`
  and `DeleteAndClearTriggerIffChanged`.
- Whether a collection is a WeakMap or WeakSet is a parameter of the write
  methods. `Contents` does not record it, and the read methods do not need
  it: `has`, `get` and `delete` of a weak collection answer a key that is
  no object with false or undefined instead of throwing.
- `refSymbol` is the symbol `Sym(1, false)`. Brand reads are returned as the
  raw objects on which GET on `refSymbol` was tracked. When
  `BaseHandlers.PropertyGet` yields a ref's `.value`, what that getter
  reports is the ref's own business, `Ref.RefGet`, and is not repeated.

## Findings

| source | as written | input that shows it | evidently intended | confidence | as-written member | corrected member |
|---|---|---|---|---|---|---|
| vue3/packages/reactivity/src/collectionHandlers.ts:82-92 | `set` (and `delete`, lines 118-128) use the key as given, while `get` and `has` look up `toRaw(key)` | `m = reactive(new Map()); k = reactive({}); m.set(k, 1); m.has(k)` gives false and `m.get(k)` undefined | the key is made raw in `set` and `delete` too, so a write is found under the key it was written with | high, not executed | CollectionHandlers.WrapperKeyLostAsWritten | CollectionHandlers.MapSetThenGet |
| vue3/packages/reactivity/src/collectionHandlers.ts:94-113 | ADD and SET are reported only when `value !== oldValue`, and `oldValue` of a missing key is undefined | on an empty `m` read by an effect through `m.size`, `m.set('a', undefined)` grows `size` to 1 and notifies nobody | a new key is always reported as ADD; SET only for a changed value | high, not executed | CollectionHandlers.NewUndefinedEntryUnreportedAsWritten | CollectionHandlers.WritesTriggerIffChanged |
| vue3/packages/reactivity/src/collectionHandlers.ts:67-92 | `add` and `set` return what the native method returns, the raw target | `m = reactive(new Map()); m.set('a', 1).set('b', 2)` performs the second write on the raw map, untracked and unreported | return the proxy they were called on, so that chained writes stay observed | medium, not executed | CollectionHandlers.ChainedWriteUnobservedAsWritten | CollectionHandlers.MapSet |
