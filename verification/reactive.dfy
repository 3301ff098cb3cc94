/** The wrapper tables of reactive.ts: raw objects and their reactive and
    readonly wrappers (proxies), the markers set by `markReadonly` and
    `markNonReactive`, and `reactive` / `readonly` / `toRaw`. */
module Reactive {
  import opened Values
  import opened Store

  /** The class of an object as `toTypeString` and `constructor` report it;
      `OtherObject` stands for every class `observableValueRE` rejects
      (Date, RegExp, Promise, ...). */
  datatype ObjectKind = PlainObject | ArrayObject | MapObject | SetObject | WeakMapObject | WeakSetObject | OtherObject {

    /** Membership of the constructor in `collectionTypes`. */
    predicate IsCollection() {
      MapObject? || SetObject? || WeakMapObject? || WeakSetObject?
    }
  }

  /** Which wrapper is asked for. */
  datatype Mode = Mutable | ReadOnly

  datatype Registry = Registry(
    kinds: map<Oid, ObjectKind>,   // every allocated object
    internal: set<Oid>,            // objects carrying `_isVue` or `_isVNode`
    rawToReactive: map<Oid, Oid>,
    reactiveToRaw: map<Oid, Oid>,
    rawToReadonly: map<Oid, Oid>,
    readonlyToRaw: map<Oid, Oid>,
    readonlyValues: set<Value>,    // markReadonly
    nonReactiveValues: set<Value>, // markNonReactive
    nextOid: Oid)                  // allocator for fresh objects
  {
    /** `to` and `back` are inverse bijections. */
    static ghost predicate Inverse(to: map<Oid, Oid>, back: map<Oid, Oid>) {
      && (forall r :: r in to ==> to[r] in back && back[to[r]] == r)
      && (forall p :: p in back ==> back[p] in to && to[back[p]] == p)
    }

    ghost predicate Valid() {
      && (forall o: Oid :: o in kinds <==> o < nextOid)
      && (forall o :: o in rawToReactive ==> o < nextOid)
      && (forall o :: o in rawToReadonly ==> o < nextOid)
      && (forall o :: o in reactiveToRaw ==> o < nextOid)
      && (forall o :: o in readonlyToRaw ==> o < nextOid)
      && Inverse(rawToReactive, reactiveToRaw)
      && Inverse(rawToReadonly, readonlyToRaw)
      // a wrapper is never itself wrapped, and is of one mode only
      && reactiveToRaw.Keys !! readonlyToRaw.Keys
      && reactiveToRaw.Keys !! rawToReactive.Keys
      && reactiveToRaw.Keys !! rawToReadonly.Keys
      && readonlyToRaw.Keys !! rawToReadonly.Keys
      && readonlyToRaw.Keys !! rawToReactive.Keys
    }

    /** The object a value denotes exists. */
    predicate Allocated(v: Value) {
      v.Obj? ==> v.id < nextOid
    }

    function KindOf(o: Oid): ObjectKind {
      if o in kinds then kinds[o] else OtherObject
    }
  }

  /** A registry with no objects yet. */
  const EmptyRegistry := Registry(map[], {}, map[], map[], map[], map[], {}, {}, 0)

  lemma EmptyRegistryValid()
    ensures EmptyRegistry.Valid()
  {
  }

  /** `new` for an object of the given class, outside any table. */
  function Allocate(reg: Registry, kind: ObjectKind): (r: (Registry, Oid))
    ensures r.1 == reg.nextOid && r.0.nextOid == reg.nextOid + 1
    ensures r.0 == reg.(kinds := reg.kinds[r.1 := kind], nextOid := reg.nextOid + 1)
    ensures reg.Valid() ==> r.0.Valid()
  {
    (reg.(kinds := reg.kinds[reg.nextOid := kind], nextOid := reg.nextOid + 1), reg.nextOid)
  }

  /** The result of a wrapping call: the new tables and target map, the
      returned value, and whether the developer warning was reported. */
  datatype Wrapped = Wrapped(reg: Registry, targetMap: TargetMap, value: Value, warned: bool)

  /** `canObserve`: not framework-internal, of an observable class, and not
      marked non-reactive. */
  predicate CanObserve(reg: Registry, o: Oid) {
    && o !in reg.internal
    && reg.KindOf(o) != OtherObject
    && Obj(o) !in reg.nonReactiveValues
  }

  /** The raw→wrapper table of a mode (`toProxy`). */
  function ToProxyTable(reg: Registry, mode: Mode): map<Oid, Oid> {
    if mode.Mutable? then reg.rawToReactive else reg.rawToReadonly
  }

  /** The wrapper→raw table of a mode (`toRaw`). */
  function ToRawTable(reg: Registry, mode: Mode): map<Oid, Oid> {
    if mode.Mutable? then reg.reactiveToRaw else reg.readonlyToRaw
  }

  /** Records `proxy` as the wrapper of `raw` in both tables of `mode`. */
  function Record(reg: Registry, mode: Mode, raw: Oid, proxy: Oid): (r: Registry)
    ensures ToProxyTable(r, mode) == ToProxyTable(reg, mode)[raw := proxy]
    ensures ToRawTable(r, mode) == ToRawTable(reg, mode)[proxy := raw]
    ensures ToProxyTable(r, OtherMode(mode)) == ToProxyTable(reg, OtherMode(mode))
    ensures ToRawTable(r, OtherMode(mode)) == ToRawTable(reg, OtherMode(mode))
    ensures r.kinds == reg.kinds && r.nextOid == reg.nextOid && r.internal == reg.internal
    ensures r.readonlyValues == reg.readonlyValues && r.nonReactiveValues == reg.nonReactiveValues
  {
    if mode.Mutable? then
      reg.(rawToReactive := reg.rawToReactive[raw := proxy], reactiveToRaw := reg.reactiveToRaw[proxy := raw])
    else
      reg.(rawToReadonly := reg.rawToReadonly[raw := proxy], readonlyToRaw := reg.readonlyToRaw[proxy := raw])
  }

  function OtherMode(mode: Mode): Mode {
    if mode.Mutable? then ReadOnly else Mutable
  }

  /** `createReactiveObject(target, toProxy, toRaw, ...)` for the tables of
      `mode`. The handler family of a new wrapper follows from its raw
      object's class (see `UsesCollectionHandlers`). */
  function CreateReactiveObject(reg: Registry, tm: TargetMap, target: Value, mode: Mode): (r: Wrapped)
    ensures !IsObject(target) ==> r == Wrapped(reg, tm, target, true)
    ensures IsObject(target) && target.id in ToProxyTable(reg, mode) ==>
              r == Wrapped(reg, tm, Obj(ToProxyTable(reg, mode)[target.id]), false)
    ensures IsObject(target) && target.id !in ToProxyTable(reg, mode) && target.id in ToRawTable(reg, mode) ==>
              r == Wrapped(reg, tm, target, false)
    ensures IsObject(target) && target.id !in ToProxyTable(reg, mode) && target.id !in ToRawTable(reg, mode)
            && !CanObserve(reg, target.id) ==>
              r == Wrapped(reg, tm, target, false)
    ensures IsObject(target) && target.id !in ToProxyTable(reg, mode) && target.id !in ToRawTable(reg, mode)
            && CanObserve(reg, target.id) ==>
              var p := reg.nextOid;
              && r.value == Obj(p) && !r.warned
              && ToProxyTable(r.reg, mode) == ToProxyTable(reg, mode)[target.id := p]
              && ToRawTable(r.reg, mode) == ToRawTable(reg, mode)[p := target.id]
              && ToProxyTable(r.reg, OtherMode(mode)) == ToProxyTable(reg, OtherMode(mode))
              && ToRawTable(r.reg, OtherMode(mode)) == ToRawTable(reg, OtherMode(mode))
              && r.reg.kinds == reg.kinds[p := reg.KindOf(target.id)]
              && r.reg.nextOid == p + 1
              && target.id in r.targetMap
              && r.targetMap == EnsureTarget(tm, target.id)
    ensures r.reg.internal == reg.internal
    ensures r.reg.readonlyValues == reg.readonlyValues && r.reg.nonReactiveValues == reg.nonReactiveValues
    ensures forall d :: Subscribers(r.targetMap, d) == Subscribers(tm, d)
    ensures ValidTargetMap(tm) ==> ValidTargetMap(r.targetMap)
  {
    if !IsObject(target) then Wrapped(reg, tm, target, true)
    else
      var o := target.id;
      if o in ToProxyTable(reg, mode) then Wrapped(reg, tm, Obj(ToProxyTable(reg, mode)[o]), false)
      else if o in ToRawTable(reg, mode) then Wrapped(reg, tm, target, false)
      else if !CanObserve(reg, o) then Wrapped(reg, tm, target, false)
      else
        var (reg1, p) := Allocate(reg, reg.KindOf(o));
        Wrapped(Record(reg1, mode, o, p), EnsureTarget(tm, o), Obj(p), false)
  }

  /** `handlers` in `createReactiveObject`: collection handlers exactly for
      the four collection classes. */
  predicate UsesCollectionHandlers(reg: Registry, raw: Oid) {
    reg.KindOf(raw).IsCollection()
  }

  /** `reactive(target)`. */
  function MakeReactive(reg: Registry, tm: TargetMap, target: Value): (r: Wrapped)
    ensures target.Obj? && target.id in reg.readonlyToRaw ==> r == Wrapped(reg, tm, target, false)
    ensures !(target.Obj? && target.id in reg.readonlyToRaw) && target in reg.readonlyValues ==>
              r == MakeReadonly(reg, tm, target)
    ensures !(target.Obj? && target.id in reg.readonlyToRaw) && target !in reg.readonlyValues ==>
              r == CreateReactiveObject(reg, tm, target, Mutable)
    ensures !IsObject(target) ==> r == Wrapped(reg, tm, target, true)
  {
    if target.Obj? && target.id in reg.readonlyToRaw then Wrapped(reg, tm, target, false)
    else if target in reg.readonlyValues then MakeReadonly(reg, tm, target)
    else CreateReactiveObject(reg, tm, target, Mutable)
  }

  /** `readonly(target)`: a reactive wrapper is replaced by its raw object
      first. */
  function MakeReadonly(reg: Registry, tm: TargetMap, target: Value): (r: Wrapped)
    ensures target.Obj? && target.id in reg.reactiveToRaw ==>
              r == CreateReactiveObject(reg, tm, Obj(reg.reactiveToRaw[target.id]), ReadOnly)
    ensures !(target.Obj? && target.id in reg.reactiveToRaw) ==>
              r == CreateReactiveObject(reg, tm, target, ReadOnly)
    ensures !IsObject(target) ==> r == Wrapped(reg, tm, target, true)
  {
    var t := if target.Obj? && target.id in reg.reactiveToRaw then Obj(reg.reactiveToRaw[target.id]) else target;
    CreateReactiveObject(reg, tm, t, ReadOnly)
  }

  /** `toReactive` / `toReadonly` of collectionHandlers.ts, the lazy wrapping
      of baseHandlers.ts' getter and ref.ts' `convert`: objects are wrapped in
      the given mode, other values pass through without a warning. */
  function Wrap(reg: Registry, tm: TargetMap, v: Value, mode: Mode): (r: Wrapped)
    ensures !IsObject(v) ==> r == Wrapped(reg, tm, v, false)
    ensures IsObject(v) && mode.Mutable? ==> r == MakeReactive(reg, tm, v)
    ensures IsObject(v) && mode.ReadOnly? ==> r == MakeReadonly(reg, tm, v)
  {
    if !IsObject(v) then Wrapped(reg, tm, v, false)
    else if mode.Mutable? then MakeReactive(reg, tm, v)
    else MakeReadonly(reg, tm, v)
  }

  /** `isReactive`: a wrapper of either mode. */
  predicate IsReactive(reg: Registry, v: Value) {
    v.Obj? && (v.id in reg.reactiveToRaw || v.id in reg.readonlyToRaw)
  }

  /** `isReadonly`: a readonly wrapper. */
  predicate IsReadonly(reg: Registry, v: Value) {
    v.Obj? && v.id in reg.readonlyToRaw
  }

  /** `toRaw`: the raw object behind a wrapper, any other value itself. */
  function ToRaw(reg: Registry, v: Value): (r: Value)
    ensures v.Obj? && v.id in reg.reactiveToRaw ==> r == Obj(reg.reactiveToRaw[v.id])
    ensures v.Obj? && v.id !in reg.reactiveToRaw && v.id in reg.readonlyToRaw ==> r == Obj(reg.readonlyToRaw[v.id])
    ensures !IsReactive(reg, v) ==> r == v
  {
    if v.Obj? && v.id in reg.reactiveToRaw then Obj(reg.reactiveToRaw[v.id])
    else if v.Obj? && v.id in reg.readonlyToRaw then Obj(reg.readonlyToRaw[v.id])
    else v
  }

  /** What `WeakSet.prototype.add` and `WeakMap.prototype.set` accept as a
      member or key: objects and functions only; anything else makes them
      throw a TypeError. */
  predicate WeakKey(v: Value) {
    v.Obj? || v.Function?
  }

  datatype Marked = Marked(reg: Registry, value: Value) | InvalidWeakSetValue

  /** `markReadonly(value)`. */
  function MarkReadonly(reg: Registry, v: Value): (r: Marked)
    ensures WeakKey(v) <==> r.Marked?
    ensures r.Marked? ==> r.value == v && r.reg == reg.(readonlyValues := reg.readonlyValues + {v})
  {
    if WeakKey(v) then Marked(reg.(readonlyValues := reg.readonlyValues + {v}), v)
    else InvalidWeakSetValue
  }

  /** `markNonReactive(value)`. */
  function MarkNonReactive(reg: Registry, v: Value): (r: Marked)
    ensures WeakKey(v) <==> r.Marked?
    ensures r.Marked? ==> r.value == v && r.reg == reg.(nonReactiveValues := reg.nonReactiveValues + {v})
  {
    if WeakKey(v) then Marked(reg.(nonReactiveValues := reg.nonReactiveValues + {v}), v)
    else InvalidWeakSetValue
  }

  /** `createReactiveObject` keeps the tables valid when it is called the way
      `reactive` and `readonly` call it: never with a wrapper of the other
      mode. */
  lemma CreateKeepsValid(reg: Registry, tm: TargetMap, target: Value, mode: Mode)
    requires reg.Valid() && reg.Allocated(target)
    requires target.Obj? ==> target.id !in ToRawTable(reg, OtherMode(mode))
    ensures var r := CreateReactiveObject(reg, tm, target, mode);
      && r.reg.Valid() && r.reg.Allocated(r.value)
      && r.reg.nextOid >= reg.nextOid
      && (forall o :: o in reg.kinds ==> o in r.reg.kinds && r.reg.kinds[o] == reg.kinds[o])
  {
    if IsObject(target) {
      var o := target.id;
      if o in ToProxyTable(reg, mode) {
        assert ToProxyTable(reg, mode)[o] in ToRawTable(reg, mode);
      } else if o !in ToRawTable(reg, mode) && CanObserve(reg, o) {
        CreateFreshKeepsValid(reg, tm, target, mode);
      }
    }
  }

  /** The branch of `createReactiveObject` that allocates a new wrapper. */
  lemma CreateFreshKeepsValid(reg: Registry, tm: TargetMap, target: Value, mode: Mode)
    requires reg.Valid() && reg.Allocated(target) && IsObject(target)
    requires target.id !in ToRawTable(reg, OtherMode(mode))
    requires target.id !in ToProxyTable(reg, mode) && target.id !in ToRawTable(reg, mode) && CanObserve(reg, target.id)
    ensures var r := CreateReactiveObject(reg, tm, target, mode);
      && r.reg.Valid() && r.reg.Allocated(r.value)
      && r.reg.nextOid >= reg.nextOid
      && (forall o :: o in reg.kinds ==> o in r.reg.kinds && r.reg.kinds[o] == reg.kinds[o])
  {
    var o := target.id;
    var (reg1, p) := Allocate(reg, reg.KindOf(o));
    if mode.Mutable? {
      RecordFreshKeepsValid(reg, reg1, o, p);
    } else {
      RecordFreshReadonlyKeepsValid(reg, reg1, o, p);
    }
  }

  /** Recording a fresh object as the reactive wrapper of an unwrapped raw
      object keeps the tables valid; the readonly case is the mirror image. */
  lemma RecordFreshKeepsValid(reg: Registry, reg1: Registry, o: Oid, p: Oid)
    requires reg.Valid() && o < reg.nextOid
    requires p == reg.nextOid && reg1 == reg.(kinds := reg.kinds[p := reg.KindOf(o)], nextOid := p + 1)
    requires o !in reg.rawToReactive && o !in reg.reactiveToRaw && o !in reg.readonlyToRaw
    ensures Record(reg1, Mutable, o, p).Valid()
  {
    assert p !in reg.rawToReactive && p !in reg.rawToReadonly;
    assert p !in reg.reactiveToRaw && p !in reg.readonlyToRaw;
    assert forall x :: x in reg.rawToReactive ==> reg.rawToReactive[x] != p;
  }

  /** The mirror image of `RecordFreshKeepsValid` for a readonly wrapper. */
  lemma RecordFreshReadonlyKeepsValid(reg: Registry, reg1: Registry, o: Oid, p: Oid)
    requires reg.Valid() && o < reg.nextOid
    requires p == reg.nextOid && reg1 == reg.(kinds := reg.kinds[p := reg.KindOf(o)], nextOid := p + 1)
    requires o !in reg.rawToReadonly && o !in reg.readonlyToRaw && o !in reg.reactiveToRaw
    ensures Record(reg1, ReadOnly, o, p).Valid()
  {
    var flip := reg.(rawToReactive := reg.rawToReadonly, reactiveToRaw := reg.readonlyToRaw,
                     rawToReadonly := reg.rawToReactive, readonlyToRaw := reg.reactiveToRaw);
    var flip1 := reg1.(rawToReactive := reg1.rawToReadonly, reactiveToRaw := reg1.readonlyToRaw,
                       rawToReadonly := reg1.rawToReactive, readonlyToRaw := reg1.reactiveToRaw);
    RecordFreshKeepsValid(flip, flip1, o, p);
    var after := Record(reg1, ReadOnly, o, p);
    var flipAfter := Record(flip1, Mutable, o, p);
    assert flipAfter == after.(rawToReactive := after.rawToReadonly, reactiveToRaw := after.readonlyToRaw,
                               rawToReadonly := after.rawToReactive, readonlyToRaw := after.reactiveToRaw);
  }

  /** `reactive`, `readonly` and lazy wrapping keep the tables valid and
      return an existing object. */
  lemma WrapKeepsValid(reg: Registry, tm: TargetMap, v: Value, mode: Mode)
    requires reg.Valid() && reg.Allocated(v)
    ensures var r := Wrap(reg, tm, v, mode);
      && r.reg.Valid() && r.reg.Allocated(r.value)
      && r.reg.nextOid >= reg.nextOid
      && (forall o :: o in reg.kinds ==> o in r.reg.kinds && r.reg.kinds[o] == reg.kinds[o])
    ensures var r := MakeReactive(reg, tm, v);
      && r.reg.Valid() && r.reg.Allocated(r.value) && r.reg.nextOid >= reg.nextOid
    ensures var r := MakeReadonly(reg, tm, v);
      && r.reg.Valid() && r.reg.Allocated(r.value) && r.reg.nextOid >= reg.nextOid
  {
    ReadonlyKeepsValid(reg, tm, v);
    if !(v.Obj? && v.id in reg.readonlyToRaw) && v !in reg.readonlyValues {
      CreateKeepsValid(reg, tm, v, Mutable);
    }
  }

  lemma ReadonlyKeepsValid(reg: Registry, tm: TargetMap, v: Value)
    requires reg.Valid() && reg.Allocated(v)
    ensures var r := MakeReadonly(reg, tm, v);
      && r.reg.Valid() && r.reg.Allocated(r.value) && r.reg.nextOid >= reg.nextOid
      && (forall o :: o in reg.kinds ==> o in r.reg.kinds && r.reg.kinds[o] == reg.kinds[o])
  {
    if v.Obj? && v.id in reg.reactiveToRaw {
      var raw := reg.reactiveToRaw[v.id];
      assert raw in reg.rawToReactive;
      CreateKeepsValid(reg, tm, Obj(raw), ReadOnly);
    } else {
      CreateKeepsValid(reg, tm, v, ReadOnly);
    }
  }

  /** Wrapping never changes the raw object behind a value:
      `toRaw(reactive(x)) == toRaw(x)` and `toRaw(readonly(x)) == toRaw(x)`;
      in particular `toRaw` of a new wrapper is the object it wraps. */
  lemma WrapPreservesRaw(reg: Registry, tm: TargetMap, v: Value)
    requires reg.Valid() && reg.Allocated(v)
    ensures var r := MakeReactive(reg, tm, v); ToRaw(r.reg, r.value) == ToRaw(reg, v)
    ensures var r := MakeReadonly(reg, tm, v); ToRaw(r.reg, r.value) == ToRaw(reg, v)
  {
    ReadonlyPreservesRaw(reg, tm, v);
    if !(v.Obj? && v.id in reg.readonlyToRaw) && v !in reg.readonlyValues {
      CreatePreservesRaw(reg, tm, v, Mutable);
    }
  }

  lemma ReadonlyPreservesRaw(reg: Registry, tm: TargetMap, v: Value)
    requires reg.Valid() && reg.Allocated(v)
    ensures var r := MakeReadonly(reg, tm, v); ToRaw(r.reg, r.value) == ToRaw(reg, v)
  {
    if v.Obj? && v.id in reg.reactiveToRaw {
      var raw := reg.reactiveToRaw[v.id];
      assert raw in reg.rawToReactive;
      assert raw !in reg.reactiveToRaw && raw !in reg.readonlyToRaw;
      CreatePreservesRaw(reg, tm, Obj(raw), ReadOnly);
    } else {
      CreatePreservesRaw(reg, tm, v, ReadOnly);
    }
  }

  lemma CreatePreservesRaw(reg: Registry, tm: TargetMap, target: Value, mode: Mode)
    requires reg.Valid() && reg.Allocated(target)
    requires target.Obj? ==> target.id !in ToRawTable(reg, OtherMode(mode))
    ensures var r := CreateReactiveObject(reg, tm, target, mode); ToRaw(r.reg, r.value) == ToRaw(reg, target)
  {
    if IsObject(target) {
      var o := target.id;
      if o in ToProxyTable(reg, mode) {
        ExistingWrapperRaw(reg, o, mode);
      } else if o !in ToRawTable(reg, mode) && CanObserve(reg, o) {
        FreshWrapperRaw(reg, tm, target, mode);
      }
    }
  }

  /** The recorded wrapper of a raw object leads back to it. */
  lemma ExistingWrapperRaw(reg: Registry, o: Oid, mode: Mode)
    requires reg.Valid() && o in ToProxyTable(reg, mode)
    ensures ToRaw(reg, Obj(ToProxyTable(reg, mode)[o])) == ToRaw(reg, Obj(o)) == Obj(o)
  {
    var p := ToProxyTable(reg, mode)[o];
    assert p in ToRawTable(reg, mode) && ToRawTable(reg, mode)[p] == o;
    assert o !in reg.reactiveToRaw && o !in reg.readonlyToRaw;
    assert p !in ToRawTable(reg, OtherMode(mode));
  }

  /** A freshly recorded wrapper leads back to its raw object. */
  lemma FreshWrapperRaw(reg: Registry, tm: TargetMap, target: Value, mode: Mode)
    requires reg.Valid() && reg.Allocated(target) && IsObject(target)
    requires target.id !in ToRawTable(reg, OtherMode(mode))
    requires target.id !in ToProxyTable(reg, mode) && target.id !in ToRawTable(reg, mode) && CanObserve(reg, target.id)
    ensures var r := CreateReactiveObject(reg, tm, target, mode); ToRaw(r.reg, r.value) == ToRaw(reg, target) == target
  {
    var p := reg.nextOid;
    assert p !in ToRawTable(reg, OtherMode(mode));
    assert target.id !in reg.reactiveToRaw && target.id !in reg.readonlyToRaw;
  }

  /** Wrapping the same value twice gives the identical wrapper and changes
      nothing the second time. */
  lemma ReactiveTwiceSameWrapper(reg: Registry, tm: TargetMap, v: Value)
    requires reg.Valid() && reg.Allocated(v)
    ensures var first := MakeReactive(reg, tm, v);
      MakeReactive(first.reg, first.targetMap, v) == first
  {
    var first := MakeReactive(reg, tm, v);
    WrapKeepsValid(reg, tm, v, Mutable);
    if v.Obj? && v.id in reg.readonlyToRaw {
    } else if v in reg.readonlyValues {
      ReadonlyTwiceSameWrapper(reg, tm, v);
    } else {
      CreateTwice(reg, tm, v, Mutable);
    }
  }

  lemma ReadonlyTwiceSameWrapper(reg: Registry, tm: TargetMap, v: Value)
    requires reg.Valid() && reg.Allocated(v)
    ensures var first := MakeReadonly(reg, tm, v);
      MakeReadonly(first.reg, first.targetMap, v) == first
  {
    var first := MakeReadonly(reg, tm, v);
    if v.Obj? && v.id in reg.reactiveToRaw {
      var raw := reg.reactiveToRaw[v.id];
      assert raw in reg.rawToReactive && raw !in reg.reactiveToRaw;
      CreateTwice(reg, tm, Obj(raw), ReadOnly);
    } else {
      CreateTwice(reg, tm, v, ReadOnly);
      assert !(v.Obj? && v.id in first.reg.reactiveToRaw);
    }
  }

  lemma CreateTwice(reg: Registry, tm: TargetMap, target: Value, mode: Mode)
    requires reg.Valid() && reg.Allocated(target)
    ensures var first := CreateReactiveObject(reg, tm, target, mode);
      CreateReactiveObject(first.reg, first.targetMap, target, mode) == first
  {
  }

  /** `reactive(reactive(x)) == reactive(x)` for a value not marked
      readonly whose wrapper is not marked readonly either;
      `readonly(readonly(x)) == readonly(x)` always. */
  lemma ReactiveOfWrapper(reg: Registry, tm: TargetMap, v: Value)
    requires reg.Valid() && reg.Allocated(v) && v !in reg.readonlyValues
    ensures var first := MakeReactive(reg, tm, v);
      first.value !in first.reg.readonlyValues ==>
        MakeReactive(first.reg, first.targetMap, first.value) == first
  {
    var first := MakeReactive(reg, tm, v);
    if v.Obj? && v.id in reg.readonlyToRaw {
      assert first == Wrapped(reg, tm, v, false);
    } else if first.value !in first.reg.readonlyValues {
      CreateKeepsValid(reg, tm, v, Mutable);
      if first.value.Obj? && first.value.id in first.reg.reactiveToRaw {
        ReactiveOfReactive(first);
      } else {
        UnwrappedUnchanged(reg, tm, v);
      }
    }
  }

  /** A reactive wrapper handed to `reactive` comes back as it is. */
  lemma ReactiveOfReactive(w: Wrapped)
    requires w.reg.Valid() && w.value.Obj? && w.value.id in w.reg.reactiveToRaw && !w.warned
    requires w.value !in w.reg.readonlyValues
    ensures MakeReactive(w.reg, w.targetMap, w.value) == w
  {
    assert w.value.id !in w.reg.rawToReactive && w.value.id !in w.reg.readonlyToRaw;
  }

  /** When `reactive` returns something other than a reactive wrapper, it
      returned its argument and recorded nothing. */
  lemma UnwrappedUnchanged(reg: Registry, tm: TargetMap, v: Value)
    requires reg.Valid() && v !in reg.readonlyValues
    ensures var first := MakeReactive(reg, tm, v);
      !(first.value.Obj? && first.value.id in first.reg.reactiveToRaw) ==>
        first.value == v && first.reg == reg && first.targetMap == tm
  {
    if v.Obj? && v.id in reg.rawToReactive {
      assert reg.rawToReactive[v.id] in reg.reactiveToRaw;
    }
  }

  lemma ReadonlyOfWrapper(reg: Registry, tm: TargetMap, v: Value)
    requires reg.Valid() && reg.Allocated(v)
    ensures var first := MakeReadonly(reg, tm, v);
      MakeReadonly(first.reg, first.targetMap, first.value) == first
  {
    var first := MakeReadonly(reg, tm, v);
    ReadonlyKeepsValid(reg, tm, v);
    if first.value.Obj? && first.value.id in first.reg.readonlyToRaw {
      ReadonlyOfReadonly(first);
    } else {
      ReadonlyUnwrappedUnchanged(reg, tm, v);
    }
  }

  /** A readonly wrapper handed to `readonly` comes back as it is. */
  lemma ReadonlyOfReadonly(w: Wrapped)
    requires w.reg.Valid() && w.value.Obj? && w.value.id in w.reg.readonlyToRaw && !w.warned
    ensures MakeReadonly(w.reg, w.targetMap, w.value) == w
  {
    assert w.value.id !in w.reg.reactiveToRaw && w.value.id !in w.reg.rawToReadonly;
  }

  /** When `readonly` returns something other than a readonly wrapper, it
      recorded nothing and returned a value that is not a reactive wrapper
      either, so `readonly` of it does the same again. */
  lemma ReadonlyUnwrappedUnchanged(reg: Registry, tm: TargetMap, v: Value)
    requires reg.Valid()
    ensures var first := MakeReadonly(reg, tm, v);
      !(first.value.Obj? && first.value.id in first.reg.readonlyToRaw) ==>
        && first.reg == reg && first.targetMap == tm
        && !(first.value.Obj? && first.value.id in reg.reactiveToRaw)
        && first == CreateReactiveObject(reg, tm, first.value, ReadOnly)
  {
    if v.Obj? && v.id in reg.reactiveToRaw {
      var raw := reg.reactiveToRaw[v.id];
      assert raw in reg.rawToReactive && raw !in reg.reactiveToRaw;
      if raw in reg.rawToReadonly {
        assert reg.rawToReadonly[raw] in reg.readonlyToRaw;
      }
    } else if v.Obj? && v.id in reg.rawToReadonly {
      assert reg.rawToReadonly[v.id] in reg.readonlyToRaw;
    }
  }

  /** `readonly` of a reactive wrapper wraps the underlying raw object. */
  lemma ReadonlyOfReactiveWrapsRaw(reg: Registry, tm: TargetMap, p: Oid)
    requires reg.Valid() && p in reg.reactiveToRaw
    ensures var raw := reg.reactiveToRaw[p];
      && MakeReadonly(reg, tm, Obj(p)) == MakeReadonly(reg, tm, Obj(raw))
      && ToRaw(reg, Obj(p)) == Obj(raw)
  {
    var raw := reg.reactiveToRaw[p];
    assert raw in reg.rawToReactive && raw !in reg.reactiveToRaw;
  }

  /** After `markReadonly(x)`, `reactive(x)` yields `readonly(x)`. */
  lemma ReactiveOfMarkedIsReadonly(reg: Registry, tm: TargetMap, v: Value)
    requires WeakKey(v)
    requires !(v.Obj? && v.id in reg.readonlyToRaw)
    ensures var m := MarkReadonly(reg, v);
      m.Marked? && MakeReactive(m.reg, tm, v) == MakeReadonly(m.reg, tm, v)
  {
  }

  /** After `markNonReactive(x)`, wrapping an object not yet wrapped returns
      it unchanged, in either mode, without a warning. */
  lemma MarkedNonReactiveStaysRaw(reg: Registry, tm: TargetMap, o: Oid, mode: Mode)
    requires o !in reg.rawToReactive && o !in reg.reactiveToRaw
    requires o !in reg.rawToReadonly && o !in reg.readonlyToRaw
    ensures var m := MarkNonReactive(reg, Obj(o));
      && m.Marked?
      && CreateReactiveObject(m.reg, tm, Obj(o), mode) == Wrapped(m.reg, tm, Obj(o), false)
      && (Obj(o) !in reg.readonlyValues ==> MakeReactive(m.reg, tm, Obj(o)) == Wrapped(m.reg, tm, Obj(o), false))
      && MakeReadonly(m.reg, tm, Obj(o)) == Wrapped(m.reg, tm, Obj(o), false)
  {
  }

  /** On valid tables: `isReadonly` implies `isReactive`, and `toRaw` fixes
      exactly the values that are not wrappers. */
  lemma WrapperPredicates(reg: Registry, v: Value)
    requires reg.Valid()
    ensures IsReadonly(reg, v) ==> IsReactive(reg, v)
    ensures ToRaw(reg, v) == v <==> !IsReactive(reg, v)
    ensures IsReactive(reg, v) ==> !IsReactive(reg, ToRaw(reg, v))
  {
    if v.Obj? && v.id in reg.reactiveToRaw {
      var raw := reg.reactiveToRaw[v.id];
      assert raw in reg.rawToReactive;
      assert raw !in reg.reactiveToRaw && raw !in reg.readonlyToRaw;
    } else if v.Obj? && v.id in reg.readonlyToRaw {
      var raw := reg.readonlyToRaw[v.id];
      assert raw in reg.rawToReadonly;
      assert raw !in reg.reactiveToRaw && raw !in reg.readonlyToRaw;
    }
  }

  /** An observable raw object comes back wrapped in the mode asked for:
      a readonly wrapper from `readonly`, a reactive and not readonly one
      from `reactive` unless the object was marked readonly. */
  lemma WrapInMode(reg: Registry, tm: TargetMap, o: Oid, mode: Mode)
    requires reg.Valid() && o < reg.nextOid
    requires !IsReactive(reg, Obj(o)) && CanObserve(reg, o)
    ensures var w := Wrap(reg, tm, Obj(o), mode);
      && (mode.ReadOnly? ==> IsReadonly(w.reg, w.value))
      && (mode.Mutable? && Obj(o) !in reg.readonlyValues ==>
            IsReactive(w.reg, w.value) && !IsReadonly(w.reg, w.value))
  {
    if o in ToProxyTable(reg, mode) {
      assert ToProxyTable(reg, mode)[o] in ToRawTable(reg, mode);
      if mode.Mutable? {
        assert reg.rawToReactive[o] !in reg.readonlyToRaw;
      }
    } else {
      assert reg.nextOid !in reg.readonlyToRaw;
    }
  }

  /** `reg'` only adds wrappers to `reg`, and only fresh ones. */
  ghost predicate Extends(reg: Registry, reg': Registry) {
    && reg'.nextOid >= reg.nextOid
    && (forall p :: p in reg.reactiveToRaw ==> p in reg'.reactiveToRaw && reg'.reactiveToRaw[p] == reg.reactiveToRaw[p])
    && (forall p :: p in reg.readonlyToRaw ==> p in reg'.readonlyToRaw && reg'.readonlyToRaw[p] == reg.readonlyToRaw[p])
    && (forall p :: p in reg'.reactiveToRaw ==> p in reg.reactiveToRaw || p >= reg.nextOid)
    && (forall p :: p in reg'.readonlyToRaw ==> p in reg.readonlyToRaw || p >= reg.nextOid)
  }

  lemma ExtendsTransitive(reg: Registry, reg': Registry, reg'': Registry)
    requires Extends(reg, reg') && Extends(reg', reg'')
    ensures Extends(reg, reg'')
  {
  }

  /** Wrapping only adds fresh wrappers, so the raw object behind any
      value that already existed stays what it was. */
  lemma WrapExtends(reg: Registry, tm: TargetMap, v: Value, mode: Mode)
    requires reg.Valid()
    ensures Extends(reg, Wrap(reg, tm, v, mode).reg)
    ensures Extends(reg, MakeReactive(reg, tm, v).reg)
    ensures Extends(reg, MakeReadonly(reg, tm, v).reg)
  {
    if v.Obj? && v.id in reg.reactiveToRaw {
      CreateExtends(reg, tm, Obj(reg.reactiveToRaw[v.id]), ReadOnly);
    } else {
      CreateExtends(reg, tm, v, ReadOnly);
    }
    CreateExtends(reg, tm, v, Mutable);
  }

  lemma CreateExtends(reg: Registry, tm: TargetMap, target: Value, mode: Mode)
    requires reg.Valid()
    ensures Extends(reg, CreateReactiveObject(reg, tm, target, mode).reg)
  {
    if IsObject(target) && target.id !in ToProxyTable(reg, mode) && target.id !in ToRawTable(reg, mode)
       && CanObserve(reg, target.id) {
      FreshWrapperExtends(reg, target.id, mode);
    } else {
      assert CreateReactiveObject(reg, tm, target, mode).reg == reg;
    }
  }

  /** Recording a newly allocated wrapper only adds a fresh entry. */
  lemma FreshWrapperExtends(reg: Registry, o: Oid, mode: Mode)
    requires reg.Valid()
    ensures var (reg1, p) := Allocate(reg, reg.KindOf(o)); Extends(reg, Record(reg1, mode, o, p))
  {
    assert reg.nextOid !in reg.reactiveToRaw && reg.nextOid !in reg.readonlyToRaw;
  }

  lemma ToRawStable(reg: Registry, reg': Registry, v: Value)
    requires Extends(reg, reg') && reg.Allocated(v)
    ensures ToRaw(reg', v) == ToRaw(reg, v)
  {
  }

  /** The raw object behind a value exists whenever the value does. */
  lemma RawIsAllocated(reg: Registry, v: Value)
    requires reg.Valid() && reg.Allocated(v)
    ensures reg.Allocated(ToRaw(reg, v))
  {
    if v.Obj? && v.id in reg.reactiveToRaw {
      assert reg.reactiveToRaw[v.id] in reg.rawToReactive;
    } else if v.Obj? && v.id in reg.readonlyToRaw {
      assert reg.readonlyToRaw[v.id] in reg.rawToReadonly;
    }
  }

  /** `toRaw` of what `Wrap` returns, in either mode. */
  lemma ToRawOfWrap(reg: Registry, tm: TargetMap, v: Value, mode: Mode)
    requires reg.Valid() && reg.Allocated(v)
    ensures ToRaw(Wrap(reg, tm, v, mode).reg, Wrap(reg, tm, v, mode).value) == ToRaw(reg, v)
  {
    WrapPreservesRaw(reg, tm, v);
  }

  /** Wrapping allocates at most one object and frees none. */
  lemma WrapGrows(reg: Registry, tm: TargetMap, v: Value, mode: Mode)
    ensures Wrap(reg, tm, v, mode).reg.nextOid >= reg.nextOid
  {
    if IsObject(v) {
      if v.Obj? && v.id in reg.reactiveToRaw {
        CreateGrows(reg, tm, Obj(reg.reactiveToRaw[v.id]), ReadOnly);
      } else {
        CreateGrows(reg, tm, v, ReadOnly);
      }
      CreateGrows(reg, tm, v, Mutable);
    }
  }

  lemma CreateGrows(reg: Registry, tm: TargetMap, target: Value, mode: Mode)
    ensures CreateReactiveObject(reg, tm, target, mode).reg.nextOid >= reg.nextOid
  {
  }

  /** Wrapping never reports the "cannot be made reactive" warning: only
      objects reach `createReactiveObject`. */
  lemma WrapQuiet(reg: Registry, tm: TargetMap, v: Value, mode: Mode)
    ensures !Wrap(reg, tm, v, mode).warned
  {
    if IsObject(v) {
      if v.Obj? && v.id in reg.reactiveToRaw {
        CreateQuiet(reg, tm, Obj(reg.reactiveToRaw[v.id]), ReadOnly);
      } else {
        CreateQuiet(reg, tm, v, ReadOnly);
      }
      CreateQuiet(reg, tm, v, Mutable);
    }
  }

  lemma CreateQuiet(reg: Registry, tm: TargetMap, target: Value, mode: Mode)
    requires IsObject(target)
    ensures !CreateReactiveObject(reg, tm, target, mode).warned
  {
  }

  /** What wrapping an existing value guarantees, in either mode: valid
      tables, only fresh wrappers added, an existing result with the same
      raw object. */
  lemma WrapFacts(reg: Registry, tm: TargetMap, v: Value, mode: Mode)
    requires reg.Valid() && reg.Allocated(v)
    ensures var r := Wrap(reg, tm, v, mode);
      && r.reg.Valid() && Extends(reg, r.reg)
      && r.reg.Allocated(r.value) && ToRaw(r.reg, r.value) == ToRaw(reg, v)
  {
    WrapExtends(reg, tm, v, mode);
    WrapKeepsValid(reg, tm, v, mode);
    WrapPreservesRaw(reg, tm, v);
  }

  /** `canObserve` decides whether a raw object without a wrapper of the
      mode gets one: an observable object comes back as a fresh wrapper
      over it, any other object comes back as it is, with no warning and
      the tables unchanged. */
  lemma WrapsIffObservable(reg: Registry, tm: TargetMap, o: Oid, mode: Mode)
    requires reg.Valid() && o < reg.nextOid
    requires !IsReactive(reg, Obj(o)) && o !in ToProxyTable(reg, mode)
    ensures var r := CreateReactiveObject(reg, tm, Obj(o), mode);
      && (r.value != Obj(o) <==> CanObserve(reg, o))
      && (!CanObserve(reg, o) ==> r == Wrapped(reg, tm, Obj(o), false))
      && (CanObserve(reg, o) ==>
            IsReactive(r.reg, r.value) && ToRaw(r.reg, r.value) == Obj(o) && r.reg.nextOid == reg.nextOid + 1)
  {
    if CanObserve(reg, o) {
      var r := CreateReactiveObject(reg, tm, Obj(o), mode);
      assert reg.nextOid !in reg.reactiveToRaw && reg.nextOid !in reg.readonlyToRaw;
      assert r.value == Obj(reg.nextOid);
    }
  }

  /** `isReadonly` holds exactly for the readonly wrapper of a raw object,
      and `isReactive` exactly for the wrapper of a raw object in either
      mode. */
  lemma ProxyPredicates(reg: Registry, v: Value)
    requires reg.Valid()
    ensures IsReadonly(reg, v) <==>
              v.Obj? && ToRaw(reg, v).id in reg.rawToReadonly && reg.rawToReadonly[ToRaw(reg, v).id] == v.id
    ensures IsReactive(reg, v) <==>
              || IsReadonly(reg, v)
              || (v.Obj? && ToRaw(reg, v).id in reg.rawToReactive && reg.rawToReactive[ToRaw(reg, v).id] == v.id)
  {
    if v.Obj? && v.id in reg.readonlyToRaw {
      assert v.id !in reg.reactiveToRaw;
    }
  }
}
