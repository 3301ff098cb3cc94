/** baseHandlers.ts: the proxy traps for plain objects and arrays, as
    decisions over the raw target's own properties. Each trap returns the
    new properties, the `track` / `trigger` call it makes and the value it
    returns; the runtime carries the call out. */
module BaseHandlers {
  import opened Values
  import opened Operations
  import opened Store
  import opened Reactive
  import Ref

  /** The own properties of a raw plain object or array. */
  type Props = map<Value, Value>

  /** `target[key]` on the raw target: the own property, or undefined. */
  function Slot(props: Props, key: Value): Value {
    if key in props then props[key] else Undefined
  }

  /** What the `get` trap returns: a value, already wrapped, with the call
      it reported; or `.value` of the ref (or wrapper of a ref) found in the
      slot, whose own getter reports that read. Both carry the objects on
      which `isRef` tracked its brand read. */
  datatype GetOutcome =
    | Returns(event: Event, w: Wrapped, brandReads: seq<Oid>)
    | ReadsRef(ref: Oid, brandReads: seq<Oid>)

  /** The `get` trap of `createGetter(isReadonly)`; `mode` is the mode of
      the handler and `brands` the objects carrying the ref brand. */
  function PropertyGet(reg: Registry, tm: TargetMap, brands: set<Oid>, props: Props, key: Value, mode: Mode): (r: GetOutcome)
    ensures IsBuiltInSymbol(key) ==> r == Returns(NoEvent, Wrapped(reg, tm, Slot(props, key), false), [])
    ensures !IsBuiltInSymbol(key) ==> r.brandReads == Ref.TestRef(reg, brands, Slot(props, key)).tracked
    ensures !IsBuiltInSymbol(key) && Ref.IsRef(reg, brands, Slot(props, key)) ==>
              r.ReadsRef? && r.ref == Slot(props, key).id
    ensures !IsBuiltInSymbol(key) && !Ref.IsRef(reg, brands, Slot(props, key)) ==>
              r.Returns? && r.event == Tracks(Get, key) && r.w == Wrap(reg, tm, Slot(props, key), mode)
  {
    var res := Slot(props, key);
    if IsBuiltInSymbol(key) then Returns(NoEvent, Wrapped(reg, tm, res, false), [])
    else
      var test := Ref.TestRef(reg, brands, res);
      if test.isRef then ReadsRef(res.id, test.tracked)
      else Returns(Tracks(Get, key), Wrap(reg, tm, res, mode), test.tracked)
  }

  /** A read keeps the raw identity of what is stored, and hands out an
      observable raw object wrapped in the handler's mode: readonly from a
      readonly handler, reactive (and not readonly) from a mutable one
      unless the object was marked readonly. */
  lemma GetWrapsInMode(reg: Registry, tm: TargetMap, brands: set<Oid>, props: Props, key: Value, mode: Mode)
    requires reg.Valid() && reg.Allocated(Slot(props, key))
    ensures var r := PropertyGet(reg, tm, brands, props, key, mode);
      r.Returns? ==>
        && r.w.reg.Valid()
        && ToRaw(r.w.reg, r.w.value) == ToRaw(reg, Slot(props, key))
        && !r.w.warned
    ensures var r := PropertyGet(reg, tm, brands, props, key, mode);
      var res := Slot(props, key);
      (r.Returns? && res.Obj? && !IsReactive(reg, res) && CanObserve(reg, res.id) && !IsBuiltInSymbol(key)) ==>
        && (mode.ReadOnly? ==> IsReadonly(r.w.reg, r.w.value))
        && (mode.Mutable? && res !in reg.readonlyValues ==>
              IsReactive(r.w.reg, r.w.value) && !IsReadonly(r.w.reg, r.w.value))
  {
    GetKeepsRaw(reg, tm, brands, props, key, mode);
    var res := Slot(props, key);
    if !IsBuiltInSymbol(key) && !Ref.IsRef(reg, brands, res) && res.Obj? && !IsReactive(reg, res) && CanObserve(reg, res.id) {
      WrapInMode(reg, tm, res.id, mode);
    }
  }

  /** The `get` trap keeps the tables valid and returns a value with the
      same raw object as the slot. */
  lemma GetKeepsRaw(reg: Registry, tm: TargetMap, brands: set<Oid>, props: Props, key: Value, mode: Mode)
    requires reg.Valid() && reg.Allocated(Slot(props, key))
    ensures var r := PropertyGet(reg, tm, brands, props, key, mode);
      r.Returns? ==>
        && r.w.reg.Valid()
        && ToRaw(r.w.reg, r.w.value) == ToRaw(reg, Slot(props, key))
        && !r.w.warned
  {
    var res := Slot(props, key);
    if !IsBuiltInSymbol(key) && !Ref.IsRef(reg, brands, res) {
      WrapKeepsValid(reg, tm, res, mode);
      WrapPreservesRaw(reg, tm, res);
      WrapQuiet(reg, tm, res, mode);
    }
  }

  /** What a write trap does; `brandReads` are the objects on which its
      `isRef` tests tracked their brand read. */
  datatype WriteOutcome =
    | Stored(props: Props, event: Event, result: bool, brandReads: seq<Oid>)  // new properties, reported call, returned flag
    | ThroughRef(ref: Oid, value: Value, brandReads: seq<Oid>)                 // `oldValue.value = value`, returns true
    | Locked                                             // readonly under the lock: warns, returns true

  /** The `set` trap. `receiverIsTarget` is `target === toRaw(receiver)`
      (false when the proxy is only on the receiver's prototype chain, in
      which case `Reflect.set` defines the property on the receiver), and
      `accepted` is the answer of `Reflect.set` (false for a read-only or
      frozen property). */
  function PropertySet(reg: Registry, brands: set<Oid>, props: Props, key: Value, value: Value,
               receiverIsTarget: bool, accepted: bool): (r: WriteOutcome)
    ensures !r.Locked?
    ensures var v := ToRaw(reg, value);
      r.ThroughRef? <==> Ref.IsRef(reg, brands, Slot(props, key)) && !Ref.IsRef(reg, brands, v)
    ensures r.ThroughRef? ==> r.ref == Slot(props, key).id && r.value == ToRaw(reg, value)
    ensures var v := ToRaw(reg, value);
      r.brandReads == Ref.TestRef(reg, brands, Slot(props, key)).tracked
                      + (if Ref.IsRef(reg, brands, Slot(props, key)) then Ref.TestRef(reg, brands, v).tracked else [])
    ensures reg.Valid() ==> r.brandReads == Ref.TestRef(reg, brands, Slot(props, key)).tracked
    ensures r.Stored? ==>
      var v := ToRaw(reg, value);
      && r.result == accepted
      && r.props == (if receiverIsTarget && accepted then props[key := v] else props)
      && (r.event == Triggers(Add, key) <==> receiverIsTarget && key !in props)
      && (r.event == Triggers(Set, key) <==> receiverIsTarget && key in props && v != props[key])
      && (r.event == NoEvent <==> !receiverIsTarget || (key in props && v == props[key]))
  {
    var v := ToRaw(reg, value);
    var hadKey := key in props;
    var oldValue := Slot(props, key);
    var oldTest := Ref.TestRef(reg, brands, oldValue);
    // `isRef(value)` is only evaluated when `isRef(oldValue)` holds
    var newTest := if oldTest.isRef then Ref.TestRef(reg, brands, v) else Ref.RefTest(false, []);
    var brandReads := oldTest.tracked + newTest.tracked;
    assert reg.Valid() ==> newTest.tracked == [] by {
      if reg.Valid() { WrapperPredicates(reg, value); }
    }
    if oldTest.isRef && !newTest.isRef then ThroughRef(oldValue.id, v, brandReads)
    else
      var props' := if receiverIsTarget && accepted then props[key := v] else props;
      var event :=
        if !receiverIsTarget then NoEvent
        else if !hadKey then Triggers(Add, key)
        else if v != oldValue then Triggers(Set, key)
        else NoEvent;
      Stored(props', event, accepted, brandReads)
  }

  /** The `deleteProperty` trap; `accepted` is the answer of
      `Reflect.deleteProperty` (false for a non-configurable property). */
  function DeleteProperty(props: Props, key: Value, accepted: bool): (r: WriteOutcome)
    ensures r.Stored? && r.result == accepted && r.brandReads == []
    ensures r.props == (if accepted then props - {key} else props)
    ensures r.event == Triggers(Delete, key) <==> accepted && key in props
    ensures r.event == NoEvent <==> !(accepted && key in props)
  {
    var hadKey := key in props;
    var props' := if accepted then props - {key} else props;
    Stored(props', if accepted && hadKey then Triggers(Delete, key) else NoEvent, accepted, [])
  }

  /** What `has` and `ownKeys` return, with the reported read. */
  datatype Query<T> = Query(event: Event, result: T)

  /** The `has` trap. */
  function PropertyHas(props: Props, key: Value): (r: Query<bool>)
    ensures r.event == Tracks(Has, key)
    ensures r.result <==> key in props
  {
    Query(Tracks(Has, key), key in props)
  }

  /** The `ownKeys` trap: the read is reported for iteration, under no key. */
  function OwnKeys(props: Props): (r: Query<set<Value>>)
    ensures r.event == Tracks(Iterate, Undefined)
    ensures forall k :: k in r.result <==> k in props
  {
    Query(Tracks(Iterate, Undefined), props.Keys)
  }

  /** `readonlyHandlers.set`: under the lock the write is refused (with a
      warning, returning true); otherwise it is the mutable trap. */
  function ReadonlySet(locked: bool, reg: Registry, brands: set<Oid>, props: Props, key: Value, value: Value,
                       receiverIsTarget: bool, accepted: bool): (r: WriteOutcome)
    ensures locked ==> r.Locked?
    ensures !locked ==> r == PropertySet(reg, brands, props, key, value, receiverIsTarget, accepted)
  {
    if locked then Locked else PropertySet(reg, brands, props, key, value, receiverIsTarget, accepted)
  }

  /** `readonlyHandlers.deleteProperty`, likewise. */
  function ReadonlyDeleteProperty(locked: bool, props: Props, key: Value, accepted: bool): (r: WriteOutcome)
    ensures locked ==> r.Locked?
    ensures !locked ==> r == DeleteProperty(props, key, accepted)
  {
    if locked then Locked else DeleteProperty(props, key, accepted)
  }

  /** The answer a proxy write gives its caller: true for a refused
      readonly write, true for a write through a ref, otherwise what the
      host reported. */
  function WriteResult(r: WriteOutcome): bool {
    match r
    case Stored(_, _, result, _) => result
    case ThroughRef(_, _, _) => true
    case Locked => true
  }

  /** The properties a write leaves behind: unchanged unless stored. */
  function PropsAfter(props: Props, r: WriteOutcome): Props {
    if r.Stored? then r.props else props
  }

  /** A readonly write under the lock leaves the target as it was, reports
      nothing and returns true; a write through a ref leaves the slot
      itself as it was. */
  lemma LockedAndRefWritesKeepProps(reg: Registry, brands: set<Oid>, props: Props, key: Value, value: Value,
                                    receiverIsTarget: bool, accepted: bool)
    ensures var r := ReadonlySet(true, reg, brands, props, key, value, receiverIsTarget, accepted);
      PropsAfter(props, r) == props && WriteResult(r)
    ensures var r := ReadonlyDeleteProperty(true, props, key, accepted);
      PropsAfter(props, r) == props && WriteResult(r)
    ensures var r := PropertySet(reg, brands, props, key, value, receiverIsTarget, accepted);
      r.ThroughRef? ==> PropsAfter(props, r) == props && WriteResult(r) && Slot(props, key).id == r.ref
  {
  }

  /** A write that lands reports a call exactly when it changed the
      target: ADD exactly when it created the key, SET exactly when it
      replaced a different value. */
  lemma SetTriggersIffChanged(reg: Registry, brands: set<Oid>, props: Props, key: Value, value: Value)
    ensures var r := PropertySet(reg, brands, props, key, value, true, true);
      r.Stored? ==>
        && (r.event != NoEvent <==> r.props != props)
        && (r.event.Triggers? && r.event.op == Add <==> key in r.props.Keys - props.Keys)
        && (r.event.Triggers? && r.event.op == Set <==> key in props && r.props[key] != props[key])
        && (r.event.Triggers? ==> r.event.key == key)
  {
    var r := PropertySet(reg, brands, props, key, value, true, true);
    if r.Stored? && r.event == NoEvent {
      assert r.props == props;
    }
  }

  /** Reading back what was written: the raw value written is stored in
      the raw target (a wrapper is never stored), `has` sees the key, and a
      second identical write reports nothing and changes nothing. */
  lemma SetThenRead(reg: Registry, brands: set<Oid>, props: Props, key: Value, value: Value)
    requires reg.Valid()
    ensures var r := PropertySet(reg, brands, props, key, value, true, true);
      r.Stored? ==>
        && Slot(r.props, key) == ToRaw(reg, value)
        && !IsReactive(reg, Slot(r.props, key))
        && PropertyHas(r.props, key).result
        && PropertySet(reg, brands, r.props, key, value, true, true) == Stored(r.props, NoEvent, true, [])
  {
    WrapperPredicates(reg, value);
  }

  /** Adding a key and deleting it again restores the target, reporting
      ADD and then DELETE; the key set grows and shrinks by that key. */
  lemma AddThenDelete(reg: Registry, brands: set<Oid>, props: Props, key: Value, value: Value)
    requires key !in props
    ensures var r := PropertySet(reg, brands, props, key, value, true, true);
      && r == Stored(props[key := ToRaw(reg, value)], Triggers(Add, key), true, [])
      && OwnKeys(r.props).result == OwnKeys(props).result + {key}
      && DeleteProperty(r.props, key, true) == Stored(props, Triggers(Delete, key), true, [])
  {
    var r := PropertySet(reg, brands, props, key, value, true, true);
    assert r.props - {key} == props;
  }

  /** A delete that the host accepts reports DELETE exactly when it
      changed the target, and afterwards `has` is false. */
  lemma DeleteTriggersIffChanged(props: Props, key: Value)
    ensures var r := DeleteProperty(props, key, true);
      && (r.event != NoEvent <==> r.props != props)
      && !PropertyHas(r.props, key).result
  {
    var r := DeleteProperty(props, key, true);
    if key in props {
      assert key !in r.props;
    }
  }
}
