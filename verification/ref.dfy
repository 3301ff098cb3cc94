/** ref.ts: single-slot reactive cells. A ref is an ordinary object
    carrying the ref brand; `ref()` keeps its value in a closure and
    reports reads and writes on the ref object itself under the key `''`,
    while `toProxyRef` forwards both directions to a property of another
    object. */
module Ref {
  import opened Values
  import opened Operations
  import opened Store
  import opened Reactive

  /** What a ref-branded object holds. */
  datatype Cell =
    | ValueCell(raw: Value)                    // `ref(raw)`: the converted value
    | PropertyCell(owner: Value, key: Value)  // `toProxyRef(object, key)`

  /** `refSymbol`, the key of the ref brand: a symbol of its own, not one
      of the built-in symbols, so a wrapper's `get` trap tracks it. */
  const RefSymbol: Value := Sym(1, false)

  /** `isRef(v)` reads `v[refSymbol]`: true only for objects carrying the
      brand, so an object that merely has a `value` property is not a ref.
      A reactive or readonly wrapper forwards the read to its raw object,
      so a wrapper of a ref is a ref too. */
  predicate IsRef(reg: Registry, brands: set<Oid>, v: Value) {
    v.Obj? && ToRaw(reg, v).id in brands
  }

  /** The answer of `isRef(v)` with the objects on which the brand read
      reported GET on `refSymbol`. */
  datatype RefTest = RefTest(isRef: bool, tracked: seq<Oid>)

  /** `isRef(v)` with its side effect: on a wrapper that uses the base
      handlers the read goes through the `get` trap, which tracks GET on
      `refSymbol` of the raw object before answering; a collection
      wrapper's `get` forwards the read without tracking, and a value that
      is no wrapper is read directly. */
  function TestRef(reg: Registry, brands: set<Oid>, v: Value): (r: RefTest)
    ensures r.isRef <==> IsRef(reg, brands, v)
    ensures |r.tracked| <= 1
    ensures r.tracked != [] <==> IsReactive(reg, v) && !UsesCollectionHandlers(reg, ToRaw(reg, v).id)
    ensures r.tracked != [] ==> r.tracked[0] == ToRaw(reg, v).id
  {
    var tracked := IsReactive(reg, v) && !UsesCollectionHandlers(reg, ToRaw(reg, v).id);
    RefTest(IsRef(reg, brands, v), if tracked then [ToRaw(reg, v).id] else [])
  }

  /** Lazy wrapping, in either mode, never changes whether a value is a
      ref: the wrapper answers the brand read of its raw object. */
  lemma WrapKeepsRefness(reg: Registry, tm: TargetMap, brands: set<Oid>, v: Value, mode: Mode)
    requires reg.Valid() && reg.Allocated(v)
    ensures var w := Wrap(reg, tm, v, mode);
      IsRef(w.reg, brands, w.value) <==> IsRef(reg, brands, v)
  {
    ToRawOfWrap(reg, tm, v, mode);
  }

  /** `isRef(reactive(r))` and `isRef(readonly(r))` are true for a ref `r`,
      and each reports GET on `refSymbol` of `r` itself; `ref()` returns
      such a wrapper as it is. */
  lemma ProxyOfRefIsRef(reg: Registry, tm: TargetMap, cells: map<Oid, Cell>, brands: set<Oid>, r: Oid, mode: Mode)
    requires reg.Valid() && r < reg.nextOid && CellsAllocated(reg, cells)
    requires r in brands && !IsReactive(reg, Obj(r))
    requires CanObserve(reg, r) && !UsesCollectionHandlers(reg, r)
    ensures var w := Wrap(reg, tm, Obj(r), mode);
      && w.value != Obj(r)
      && TestRef(w.reg, brands, w.value) == RefTest(true, [r])
      && MakeRef(w.reg, w.targetMap, cells, brands, w.value).ref == w.value
  {
    var w := Wrap(reg, tm, Obj(r), mode);
    WrapOfObservableIsProxy(reg, tm, r, mode);
    assert CellsAllocated(w.reg, cells);
    assert IsRef(w.reg, brands, w.value);
  }

  /** Wrapping an observable raw object, in either mode, yields a wrapper
      over it that uses the same handler family. */
  lemma WrapOfObservableIsProxy(reg: Registry, tm: TargetMap, o: Oid, mode: Mode)
    requires reg.Valid() && o < reg.nextOid
    requires !IsReactive(reg, Obj(o)) && CanObserve(reg, o)
    ensures var w := Wrap(reg, tm, Obj(o), mode);
      && IsReactive(w.reg, w.value) && ToRaw(w.reg, w.value) == Obj(o)
      && (UsesCollectionHandlers(w.reg, o) <==> UsesCollectionHandlers(reg, o))
      && w.reg.nextOid >= reg.nextOid
  {
    var w := Wrap(reg, tm, Obj(o), mode);
    WrapFacts(reg, tm, Obj(o), mode);
    WrapKeepsValid(reg, tm, Obj(o), mode);
    if mode.Mutable? && Obj(o) in reg.readonlyValues {
      assert w == MakeReadonly(reg, tm, Obj(o));
      WrapInMode(reg, tm, o, ReadOnly);
    } else {
      WrapInMode(reg, tm, o, mode);
    }
  }

  /** Every cell lives in an allocated object. */
  ghost predicate CellsAllocated(reg: Registry, cells: map<Oid, Cell>) {
    forall c :: c in cells ==> c < reg.nextOid
  }

  /** `convert`: objects become reactive wrappers, other values stay as
      they are (and, unlike `reactive`, without a warning). */
  function Convert(reg: Registry, tm: TargetMap, v: Value): (r: Wrapped)
    ensures !IsObject(v) ==> r == Wrapped(reg, tm, v, false)
    ensures IsObject(v) ==> r == MakeReactive(reg, tm, v)
    ensures reg.Valid() && reg.Allocated(v) ==>
              r.reg.Valid() && r.reg.Allocated(r.value) && ToRaw(r.reg, r.value) == ToRaw(reg, v)
    ensures r.reg.nextOid >= reg.nextOid
  {
    var w := Wrap(reg, tm, v, Mutable);
    WrapGrows(reg, tm, v, Mutable);
    assert reg.Valid() && reg.Allocated(v) ==>
             w.reg.Valid() && w.reg.Allocated(w.value) && ToRaw(w.reg, w.value) == ToRaw(reg, v) by {
      if reg.Valid() && reg.Allocated(v) {
        WrapKeepsValid(reg, tm, v, Mutable);
        WrapPreservesRaw(reg, tm, v);
      }
    }
    w
  }

  /** The result of `ref()`: the tables after conversion and allocation,
      the cells, the returned ref, and the reads `isRef` reported. */
  datatype Created = Created(reg: Registry, targetMap: TargetMap, cells: map<Oid, Cell>, ref: Value,
                             brandReads: seq<Oid>)

  /** `ref(raw)`: a ref is returned as it is; anything else is converted
      and stored in a fresh ref object. */
  function MakeRef(reg: Registry, tm: TargetMap, cells: map<Oid, Cell>, brands: set<Oid>, raw: Value): (r: Created)
    requires CellsAllocated(reg, cells)
    ensures r.brandReads == TestRef(reg, brands, raw).tracked
    ensures IsRef(reg, brands, raw) ==> r == Created(reg, tm, cells, raw, r.brandReads)
    ensures !IsRef(reg, brands, raw) ==>
      var w := Convert(reg, tm, raw);
      && r.ref == Obj(w.reg.nextOid)
      && r.ref.id !in cells
      && r.cells == cells[r.ref.id := ValueCell(w.value)]
      && r.reg == Allocate(w.reg, PlainObject).0
      && r.targetMap == w.targetMap
    ensures CellsAllocated(r.reg, r.cells)
    ensures r.reg.nextOid >= reg.nextOid
  {
    var test := TestRef(reg, brands, raw);
    if test.isRef then Created(reg, tm, cells, raw, test.tracked)
    else
      var w := Convert(reg, tm, raw);
      var (reg1, p) := Allocate(w.reg, PlainObject);
      Created(reg1, w.targetMap, cells[p := ValueCell(w.value)], Obj(p), test.tracked)
  }

  /** `ref(ref(x))` is `ref(x)`: the second call sees the brand, and
      reports a brand read only when the first one returned a wrapper. */
  lemma RefOfRef(reg: Registry, tm: TargetMap, cells: map<Oid, Cell>, brands: set<Oid>, raw: Value)
    requires reg.Valid() && reg.Allocated(raw) && CellsAllocated(reg, cells)
    ensures var c := MakeRef(reg, tm, cells, brands, raw);
      var c2 := MakeRef(c.reg, c.targetMap, c.cells, brands + c.cells.Keys, c.ref);
      && c2 == c.(brandReads := c2.brandReads)
      && (IsRef(reg, brands, raw) ==> c2 == c)
      && (!IsRef(reg, brands, raw) ==> c2.brandReads == [])
  {
    var c := MakeRef(reg, tm, cells, brands, raw);
    if !IsRef(reg, brands, raw) {
      var w := Convert(reg, tm, raw);
      assert w.reg.Valid();
      assert !IsReactive(c.reg, c.ref);
      assert c.ref.id in c.cells.Keys;
    }
  }

  /** A new ref holds the converted value: the same raw identity, and a
      reactive wrapper when the value is an observable raw object. */
  lemma RefHoldsConverted(reg: Registry, tm: TargetMap, cells: map<Oid, Cell>, brands: set<Oid>, raw: Value)
    requires reg.Valid() && reg.Allocated(raw) && CellsAllocated(reg, cells)
    requires !IsRef(reg, brands, raw)
    ensures var c := MakeRef(reg, tm, cells, brands, raw);
      && c.reg.Valid()
      && c.cells[c.ref.id].ValueCell?
      && ToRaw(c.reg, c.cells[c.ref.id].raw) == ToRaw(reg, raw)
      && (raw.Obj? && raw.id !in reg.reactiveToRaw && raw.id !in reg.readonlyToRaw
          && raw !in reg.readonlyValues && CanObserve(reg, raw.id) ==>
            c.cells[c.ref.id].raw.id in c.reg.reactiveToRaw)
  {
    var w := Convert(reg, tm, raw);
    var c := MakeRef(reg, tm, cells, brands, raw);
    assert c.reg.reactiveToRaw == w.reg.reactiveToRaw && c.reg.readonlyToRaw == w.reg.readonlyToRaw;
    assert ToRaw(c.reg, w.value) == ToRaw(w.reg, w.value);
    if raw.Obj? && raw.id !in reg.reactiveToRaw && raw.id !in reg.readonlyToRaw
       && raw !in reg.readonlyValues && CanObserve(reg, raw.id) {
      WrapInMode(reg, tm, raw.id, Mutable);
    }
  }

  /** What reading `.value` does. */
  datatype RefRead =
    | SlotRead(value: Value, event: Event)      // returns the slot, reporting the read
    | ReadsProperty(owner: Value, key: Value)  // returns `object[key]`

  /** The `value` getter. */
  function RefGet(cell: Cell): (r: RefRead)
    ensures cell.ValueCell? ==> r == SlotRead(cell.raw, Tracks(Get, RefSlotKey))
    ensures cell.PropertyCell? ==> r == ReadsProperty(cell.owner, cell.key)
  {
    match cell
    case ValueCell(raw) => SlotRead(raw, Tracks(Get, RefSlotKey))
    case PropertyCell(owner, key) => ReadsProperty(owner, key)
  }

  /** What writing `.value` does. */
  datatype RefWrite =
    | SlotWritten(cell: Cell, reg: Registry, targetMap: TargetMap, event: Event)
    | WritesProperty(owner: Value, key: Value, value: Value)  // `object[key] = value`

  /** The `value` setter. */
  function RefSet(reg: Registry, tm: TargetMap, cell: Cell, newVal: Value): (r: RefWrite)
    ensures cell.ValueCell? ==>
      var w := Convert(reg, tm, newVal);
      r == SlotWritten(ValueCell(w.value), w.reg, w.targetMap, Triggers(Set, RefSlotKey))
    ensures cell.PropertyCell? ==> r == WritesProperty(cell.owner, cell.key, newVal)
  {
    match cell
    case ValueCell(_) =>
      var w := Convert(reg, tm, newVal);
      SlotWritten(ValueCell(w.value), w.reg, w.targetMap, Triggers(Set, RefSlotKey))
    case PropertyCell(owner, key) => WritesProperty(owner, key, newVal)
  }

  /** Writing a value cell and reading it back: the read reports GET on
      `''` and returns a value with the raw identity written; the write
      reports SET on `''` even when the value written is the one already
      held, since the setter compares nothing. */
  lemma RefSetThenGet(reg: Registry, tm: TargetMap, raw: Value, newVal: Value)
    requires reg.Valid() && reg.Allocated(newVal)
    ensures var w := RefSet(reg, tm, ValueCell(raw), newVal);
      && w.SlotWritten?
      && w.event == Triggers(Set, RefSlotKey)
      && w.reg.Valid()
      && RefGet(w.cell).SlotRead?
      && RefGet(w.cell).event == Tracks(Get, RefSlotKey)
      && ToRaw(w.reg, RefGet(w.cell).value) == ToRaw(reg, newVal)
  {
  }

  /** A ref made by `toProxyRef(object, key)` reads `object[key]` and
      writes `object[key]`, whatever value it is given. */
  lemma ProxyRefForwards(reg: Registry, tm: TargetMap, owner: Value, key: Value, v: Value)
    ensures RefGet(PropertyCell(owner, key)) == ReadsProperty(owner, key)
    ensures RefSet(reg, tm, PropertyCell(owner, key), v) == WritesProperty(owner, key, v)
  {
  }

  /** The plain object `toRefs` returns: a fresh object whose property
      `k` holds the proxy ref for `k`. */
  datatype Refs = Refs(reg: Registry, cells: map<Oid, Cell>, ret: Oid, props: map<Value, Value>)

  /** `toRefs(object)`: `keys` is the `for ... in` enumeration of the
      object's keys. */
  function ToRefs(reg: Registry, cells: map<Oid, Cell>, owner: Value, keys: seq<Value>): (r: Refs)
    requires CellsAllocated(reg, cells)
    ensures r.ret == reg.nextOid && r.ret !in r.cells
    ensures r.props.Keys == set k | k in keys
    ensures CellsAllocated(r.reg, r.cells) && r.reg.nextOid > reg.nextOid
  {
    var (reg1, ret) := Allocate(reg, PlainObject);
    var made := ProxyRefs(reg1, cells, owner, keys);
    Refs(made.0, made.1, ret, map k | k in made.2 :: Obj(made.2[k]))
  }

  /** `toRefs` only allocates, so the tables stay valid. */
  lemma ToRefsValid(reg: Registry, cells: map<Oid, Cell>, owner: Value, keys: seq<Value>)
    requires CellsAllocated(reg, cells) && reg.Valid()
    ensures ToRefs(reg, cells, owner, keys).reg.Valid()
  {
    ProxyRefsValid(Allocate(reg, PlainObject).0, cells, owner, keys);
  }

  /** The loop of `toRefs` keeps the tables valid. */
  lemma {:induction false} ProxyRefsValid(reg: Registry, cells: map<Oid, Cell>, owner: Value, keys: seq<Value>)
    requires CellsAllocated(reg, cells) && reg.Valid()
    ensures ProxyRefs(reg, cells, owner, keys).0.Valid()
    decreases |keys|
  {
    if |keys| > 0 {
      var (reg1, p) := Allocate(reg, PlainObject);
      ProxyRefsValid(reg1, cells[p := PropertyCell(owner, keys[0])], owner, keys[1..]);
    }
  }

  /** The loop of `toRefs`: one fresh proxy ref per key, the last one
      winning for a repeated key. */
  function ProxyRefs(reg: Registry, cells: map<Oid, Cell>, owner: Value, keys: seq<Value>)
    : (r: (Registry, map<Oid, Cell>, map<Value, Oid>))
    requires CellsAllocated(reg, cells)
    ensures r.2.Keys == set k | k in keys
    ensures forall k :: k in r.2 ==>
              && r.2[k] in r.1 && r.1[r.2[k]] == PropertyCell(owner, k)
              && reg.nextOid <= r.2[k] < r.0.nextOid
    ensures forall k1, k2 :: k1 in r.2 && k2 in r.2 && k1 != k2 ==> r.2[k1] != r.2[k2]
    ensures forall c :: c in cells ==> c in r.1 && r.1[c] == cells[c]
    ensures forall c :: c in r.1 ==> c in cells || reg.nextOid <= c
    ensures CellsAllocated(r.0, r.1) && r.0.nextOid >= reg.nextOid
    decreases |keys|
  {
    if |keys| == 0 then (reg, cells, map[])
    else
      var (reg1, p) := Allocate(reg, PlainObject);
      var rest := ProxyRefs(reg1, cells[p := PropertyCell(owner, keys[0])], owner, keys[1..]);
      var refs := if keys[0] in rest.2 then rest.2 else rest.2[keys[0] := p];
      assert forall k :: k in keys <==> k == keys[0] || k in keys[1..];
      (rest.0, rest.1, refs)
  }

  /** Every property of the object `toRefs` returns is a distinct, fresh
      proxy ref that reads and writes the same key of the source object. */
  lemma ToRefsForwards(reg: Registry, cells: map<Oid, Cell>, owner: Value, keys: seq<Value>)
    requires CellsAllocated(reg, cells)
    ensures var r := ToRefs(reg, cells, owner, keys);
      forall k :: k in keys ==>
        && r.props[k].Obj? && r.props[k].id in r.cells && r.props[k].id !in cells
        && RefGet(r.cells[r.props[k].id]) == ReadsProperty(owner, k)
        && (forall v :: RefSet(r.reg, map[], r.cells[r.props[k].id], v) == WritesProperty(owner, k, v))
  {
    var r := ToRefs(reg, cells, owner, keys);
    var made := ProxyRefs(Allocate(reg, PlainObject).0, cells, owner, keys);
    forall k | k in keys
      ensures r.props[k].Obj? && r.props[k].id in r.cells && r.props[k].id !in cells
      ensures RefGet(r.cells[r.props[k].id]) == ReadsProperty(owner, k)
    {
      assert k in made.2;
      assert r.props[k] == Obj(made.2[k]);
      assert made.2[k] >= reg.nextOid + 1;
    }
  }
}
