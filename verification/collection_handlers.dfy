/** collectionHandlers.ts: the instrumented methods a Map, Set, WeakMap or
    WeakSet wrapper hands out instead of the native ones, as decisions over
    the raw collection's contents. As in baseHandlers.ts, each method
    returns the new contents, the `track` / `trigger` call it makes and its
    result; wrapping threads the wrapper tables through. */
module CollectionHandlers {
  import opened Values
  import opened Operations
  import opened Store
  import opened Reactive

  /** The contents of a raw collection: its keys in insertion order and
      the value under each key (a Set maps each member to itself). */
  datatype Contents = Contents(keys: seq<Value>, vals: map<Value, Value>) {

    ghost predicate Valid() {
      && NoDup(keys)
      && (forall k :: k in keys <==> k in vals)
    }

    /** `proto.has.call(target, key)`. */
    predicate Contains(key: Value) {
      key in vals
    }

    /** `proto.get.call(target, key)`: undefined for a missing key. */
    function Lookup(key: Value): Value {
      if key in vals then vals[key] else Undefined
    }

    /** `proto.set.call(target, key, value)`: a new key goes last. */
    function Put(key: Value, value: Value): (r: Contents)
      ensures Valid() ==> r.Valid()
      ensures r.vals == vals[key := value]
    {
      Contents(Insert(keys, key), vals[key := value])
    }

    /** `proto.delete.call(target, key)`. */
    function Without(key: Value): (r: Contents)
      ensures Valid() ==> r.Valid()
      ensures r.vals == vals - {key}
    {
      Contents(Remove(keys, key), vals - {key})
    }

    /** `proto.clear.call(target)`. */
    function Cleared(): (r: Contents)
      ensures r.Valid() && |r.keys| == 0
    {
      Contents([], map[])
    }

    /** The contents of a Set: each member is its own value. */
    predicate SetLike() {
      forall k :: k in vals ==> vals[k] == k
    }

    /** The size the native `size` getter reports. */
    function Size(): nat {
      |keys|
    }
  }

  /** A read method's answer: the call it reported and its (wrapped) result. */
  datatype Answer = Answer(event: Event, w: Wrapped)

  /** The instrumented `get(key)`: reads under the raw key and wraps the
      result in the mode of the wrapper. */
  function MapGet(reg: Registry, tm: TargetMap, c: Contents, key: Value, mode: Mode): (r: Answer)
    ensures r.event == Tracks(Get, ToRaw(reg, key))
    ensures r.w == Wrap(reg, tm, c.Lookup(ToRaw(reg, key)), mode)
  {
    var k := ToRaw(reg, key);
    Answer(Tracks(Get, k), Wrap(reg, tm, c.Lookup(k), mode))
  }

  /** A method answer that needs no wrapping. */
  datatype Query<T> = Query(event: Event, result: T)

  /** The instrumented `has(key)`, under the raw key. */
  function CollectionHas(reg: Registry, c: Contents, key: Value): (r: Query<bool>)
    ensures r.event == Tracks(Has, ToRaw(reg, key))
    ensures r.result <==> ToRaw(reg, key) in c.vals
  {
    var k := ToRaw(reg, key);
    Query(Tracks(Has, k), c.Contains(k))
  }

  /** The instrumented `size` getter: reported as iteration. */
  function CollectionSize(c: Contents): (r: Query<nat>)
    ensures r.event == Tracks(Iterate, Undefined)
    ensures c.Valid() ==> r.result == |c.vals.Keys|
  {
    assert c.Valid() ==> c.Size() == |c.vals.Keys| by {
      if c.Valid() { SizeIsKeyCount(c); }
    }
    Query(Tracks(Iterate, Undefined), c.Size())
  }

  lemma SizeIsKeyCount(c: Contents)
    requires c.Valid()
    ensures |c.keys| == |c.vals.Keys|
  {
    var ks := set k | k in c.keys;
    assert ks == c.vals.Keys;
    NoDupCardinality(c.keys);
  }

  /** A sequence without duplicates has as many elements as its set. */
  lemma {:induction false} NoDupCardinality<T>(s: seq<T>)
    requires NoDup(s)
    ensures |set x | x in s| == |s|
  {
    if |s| > 0 {
      var tail := s[1..];
      assert NoDup(tail) by {
        forall i, j | 0 <= i < j < |tail| ensures tail[i] != tail[j] {
          assert tail[i] == s[i + 1] && tail[j] == s[j + 1];
        }
      }
      NoDupCardinality(tail);
      assert s[0] !in tail by {
        forall i | 0 <= i < |tail| ensures tail[i] != s[0] {
          assert tail[i] == s[i + 1];
        }
      }
      assert (set x | x in s) == (set x | x in tail) + {s[0]};
    }
  }

  /** A write method's effect: the new contents, the reported call, the
      value returned and whether the readonly warning was issued; or the
      TypeError the native `add` of a WeakSet or `set` of a WeakMap throws
      for a key that is no object, before anything is stored or reported. */
  datatype Change =
    | Change(contents: Contents, event: Event, result: Value, warned: bool)
    | ThrowsTypeError

  /** The contents a write method leaves: unchanged when it threw. */
  function ContentsAfter(c: Contents, r: Change): Contents {
    if r.Change? then r.contents else c
  }

  /** The call a write method reported: none when it threw. */
  function EventOf(r: Change): Event {
    if r.Change? then r.event else NoEvent
  }

  /** The instrumented `add(value)` as written: the raw value is added and
      ADD is reported when it was not yet present; the result is what the
      native `add` returns, the raw target. `weak` says the raw collection
      is a WeakSet, whose `add` throws for a value that is no object. */
  function SetAddAsWritten(reg: Registry, c: Contents, weak: bool, target: Oid, value: Value): (r: Change)
    ensures r.ThrowsTypeError? <==> weak && !WeakKey(ToRaw(reg, value))
    ensures r.Change? ==>
      && r.contents == c.Put(ToRaw(reg, value), ToRaw(reg, value))
      && r.event == (if ToRaw(reg, value) in c.vals then NoEvent else Triggers(Add, ToRaw(reg, value)))
      && r.result == Obj(target) && !r.warned
  {
    var v := ToRaw(reg, value);
    var hadKey := c.Contains(v);
    if weak && !WeakKey(v) then ThrowsTypeError
    else Change(c.Put(v, v), if !hadKey then Triggers(Add, v) else NoEvent, Obj(target), false)
  }

  /** The instrumented `set(key, value)` as written: the key is used as
      given while the value is made raw, and a call is reported only when
      the value differs from the old one (which reads undefined for a
      missing key); the result is the raw target. `weak` says the raw
      collection is a WeakMap, whose `set` throws for a key that is no
      object. */
  function MapSetAsWritten(reg: Registry, c: Contents, weak: bool, target: Oid, key: Value, value: Value): (r: Change)
    ensures r.ThrowsTypeError? <==> weak && !WeakKey(key)
    ensures r.Change? ==>
      && r.contents == c.Put(key, ToRaw(reg, value))
      && (ToRaw(reg, value) == c.Lookup(key) ==> r.event == NoEvent)
      && (ToRaw(reg, value) != c.Lookup(key) ==> r.event == Triggers(if key in c.vals then Set else Add, key))
      && r.result == Obj(target) && !r.warned
  {
    var v := ToRaw(reg, value);
    var hadKey := c.Contains(key);
    var oldValue := c.Lookup(key);
    var event := if v == oldValue then NoEvent else if !hadKey then Triggers(Add, key) else Triggers(Set, key);
    if weak && !WeakKey(key) then ThrowsTypeError
    else Change(c.Put(key, v), event, Obj(target), false)
  }

  /** The instrumented `delete(key)` as written: the key is used as given;
      DELETE is reported when it was present. */
  function DeleteEntryAsWritten(c: Contents, key: Value): (r: Change)
    ensures r.Change?
    ensures r.contents == c.Without(key)
    ensures r.event == (if key in c.vals then Triggers(Delete, key) else NoEvent)
    ensures r.result == Bool(key in c.vals) && !r.warned
  {
    var hadKey := c.Contains(key);
    Change(c.Without(key), if hadKey then Triggers(Delete, key) else NoEvent, Bool(hadKey), false)
  }

  /** `add(value)` with the result the method evidently means to give: the
      wrapper it was called on, so that chained calls stay observed. */
  function SetAdd(reg: Registry, c: Contents, weak: bool, receiver: Value, value: Value): (r: Change)
    ensures r.ThrowsTypeError? <==> weak && !WeakKey(ToRaw(reg, value))
    ensures r.Change? ==>
      && r.contents == c.Put(ToRaw(reg, value), ToRaw(reg, value))
      && r.event == (if ToRaw(reg, value) in c.vals then NoEvent else Triggers(Add, ToRaw(reg, value)))
      && r.result == receiver && !r.warned
  {
    var v := ToRaw(reg, value);
    if weak && !WeakKey(v) then ThrowsTypeError
    else Change(c.Put(v, v), if !c.Contains(v) then Triggers(Add, v) else NoEvent, receiver, false)
  }

  /** `set(key, value)` as evidently intended: the key is made raw like in
      `get` and `has`, a new key is always reported as ADD, and the result
      is the wrapper it was called on. */
  function MapSet(reg: Registry, c: Contents, weak: bool, receiver: Value, key: Value, value: Value): (r: Change)
    ensures r.ThrowsTypeError? <==> weak && !WeakKey(ToRaw(reg, key))
    ensures r.Change? ==> r.result == receiver && !r.warned
  {
    var k := ToRaw(reg, key);
    var v := ToRaw(reg, value);
    var event :=
      if !c.Contains(k) then Triggers(Add, k)
      else if v != c.Lookup(k) then Triggers(Set, k)
      else NoEvent;
    if weak && !WeakKey(k) then ThrowsTypeError
    else Change(c.Put(k, v), event, receiver, false)
  }

  /** `delete(key)` as evidently intended: under the raw key. */
  function DeleteEntry(reg: Registry, c: Contents, key: Value): (r: Change)
    ensures r.Change?
    ensures r.result == Bool(ToRaw(reg, key) in c.vals) && !r.warned
  {
    var k := ToRaw(reg, key);
    Change(c.Without(k), if c.Contains(k) then Triggers(Delete, k) else NoEvent, Bool(c.Contains(k)), false)
  }

  /** The instrumented `clear()`: CLEAR (under no key) only when there was
      something to remove; the result is undefined. */
  function CollectionClear(c: Contents): (r: Change)
    ensures r.Change?
    ensures r.contents.Valid() && r.contents.Size() == 0
    ensures r.event == (if c.Size() != 0 then Triggers(Clear, Undefined) else NoEvent)
    ensures r.result == Undefined && !r.warned
  {
    Change(c.Cleared(), if c.Size() != 0 then Triggers(Clear, Undefined) else NoEvent, Undefined, false)
  }

  /** `createReadonlyMethod(method, type)`: under the lock the call is
      refused with a warning, leaving the contents alone and returning
      false for DELETE and the receiver otherwise; without the lock it is
      the mutable method, whose effect is `unlocked`. */
  function ReadonlyMethod(locked: bool, op: OperationType, receiver: Value, c: Contents, unlocked: Change): (r: Change)
    ensures locked ==> r == Change(c, NoEvent, if op.Delete? then Bool(false) else receiver, true)
    ensures !locked ==> r == unlocked
  {
    if locked then Change(c, NoEvent, if op.Delete? then Bool(false) else receiver, true)
    else unlocked
  }

  // ---------------------------------------------------------------------
  // Properties of the corrected write methods

  /** Reading back under the same key: whatever key (raw or wrapper) a
      value is written under, `get` and `has` with that key find it, once
      the write was accepted. */
  lemma MapSetThenGet(reg: Registry, tm: TargetMap, c: Contents, weak: bool, receiver: Value, key: Value, value: Value, mode: Mode)
    requires reg.Valid() && reg.Allocated(value)
    ensures var r := MapSet(reg, c, weak, receiver, key, value);
      r.Change? ==>
        && CollectionHas(reg, r.contents, key).result
        && ToRaw(MapGet(reg, tm, r.contents, key, mode).w.reg, MapGet(reg, tm, r.contents, key, mode).w.value)
             == ToRaw(reg, value)
  {
    var k := ToRaw(reg, key);
    var v := ToRaw(reg, value);
    var r := MapSet(reg, c, weak, receiver, key, value);
    if r.ThrowsTypeError? { return; }
    assert r.contents.Lookup(k) == v;
    var g := MapGet(reg, tm, r.contents, key, mode);
    assert g.w == Wrap(reg, tm, v, mode);
    WrapperPredicates(reg, value);
    RawIsAllocated(reg, value);
    ToRawOfWrap(reg, tm, v, mode);
    WrapperPredicates(reg, v);
  }

  /** A write reports a call exactly when it changes the contents: ADD
      exactly when the key is new, SET exactly when a different value is
      replaced; `add` on a Set likewise. A write a weak collection rejects
      changes nothing and reports nothing. */
  lemma WritesTriggerIffChanged(reg: Registry, c: Contents, weak: bool, receiver: Value, key: Value, value: Value)
    requires c.Valid()
    ensures var r := MapSet(reg, c, weak, receiver, key, value);
      var after := ContentsAfter(c, r);
      && after.Valid()
      && (EventOf(r) != NoEvent <==> after != c)
      && (EventOf(r).Triggers? && EventOf(r).op.Add? <==> ToRaw(reg, key) in after.vals.Keys - c.vals.Keys)
      && (EventOf(r).Triggers? && EventOf(r).op.Set? <==>
            ToRaw(reg, key) in c.vals && after.vals[ToRaw(reg, key)] != c.vals[ToRaw(reg, key)])
    ensures var r := SetAdd(reg, c, weak, receiver, value);
      && ContentsAfter(c, r).Valid()
      && (c.SetLike() ==> (EventOf(r) != NoEvent <==> ContentsAfter(c, r) != c))
  {
    var k := ToRaw(reg, key);
    var r := MapSet(reg, c, weak, receiver, key, value);
    if r.Change? {
      if r.event == NoEvent {
        assert k in c.vals && c.vals[k := c.vals[k]] == c.vals;
        assert r.contents.keys == c.keys;
      } else {
        assert r.contents.vals != c.vals by {
          if k !in c.vals { assert k in r.contents.vals; }
          else { assert r.contents.vals[k] != c.vals[k]; }
        }
      }
    }
    var v := ToRaw(reg, value);
    var a := SetAdd(reg, c, weak, receiver, value);
    if a.Change? {
      if v in c.vals && c.SetLike() {
        assert a.contents.vals == c.vals && a.contents.keys == c.keys;
      } else {
        assert v in a.contents.vals;
      }
    }
  }

  /** On a WeakMap or WeakSet, the written methods and the corrected ones
      reject exactly the keys that are no objects, and a rejected write
      leaves the contents and reports nothing; a Map or Set accepts every
      key. */
  lemma WeakWritesRejectPrimitives(reg: Registry, c: Contents, target: Oid, receiver: Value, key: Value, value: Value)
    ensures MapSetAsWritten(reg, c, true, target, key, value).ThrowsTypeError? <==> !WeakKey(key)
    ensures MapSet(reg, c, true, receiver, key, value).ThrowsTypeError? <==> !WeakKey(key)
    ensures SetAddAsWritten(reg, c, true, target, value).ThrowsTypeError? <==> !WeakKey(value)
    ensures SetAdd(reg, c, true, receiver, value).ThrowsTypeError? <==> !WeakKey(value)
    ensures !WeakKey(key) ==>
      var r := MapSet(reg, c, true, receiver, key, value);
      ContentsAfter(c, r) == c && EventOf(r) == NoEvent
    ensures !WeakKey(value) ==>
      var r := SetAdd(reg, c, true, receiver, value);
      ContentsAfter(c, r) == c && EventOf(r) == NoEvent
    ensures MapSet(reg, c, false, receiver, key, value).Change?
    ensures SetAdd(reg, c, false, receiver, value).Change?
  {
  }

  /** Deleting reports DELETE exactly when the key was present, after
      which it is gone; clearing reports CLEAR exactly when the contents
      were not empty. */
  lemma DeleteAndClearTriggerIffChanged(reg: Registry, c: Contents, key: Value)
    requires c.Valid()
    ensures var r := DeleteEntry(reg, c, key);
      && r.contents.Valid()
      && (r.event != NoEvent <==> r.contents != c)
      && !CollectionHas(reg, r.contents, key).result
    ensures var r := CollectionClear(c);
      r.event != NoEvent <==> r.contents != c
  {
    var k := ToRaw(reg, key);
    var r := DeleteEntry(reg, c, key);
    if k in c.vals {
      assert k !in r.contents.vals;
    } else {
      assert c.vals - {k} == c.vals;
      assert Remove(c.keys, k) == c.keys;
    }
    if c.Size() == 0 {
      assert forall k :: k !in c.keys;
      assert forall k :: k !in c.vals;
      assert c == Contents([], map[]);
    }
  }

  /** Readonly write methods under the lock change nothing: the contents
      stay, nothing is reported, the warning is issued, and the result is
      false for `delete` and the receiver for `add`, `set` and `clear`. */
  lemma LockedWritesChangeNothing(reg: Registry, c: Contents, weak: bool, receiver: Value, key: Value, value: Value)
    ensures var r := ReadonlyMethod(true, Add, receiver, c, SetAdd(reg, c, weak, receiver, value));
      r.contents == c && r.event == NoEvent && r.warned && r.result == receiver
    ensures var r := ReadonlyMethod(true, Set, receiver, c, MapSet(reg, c, weak, receiver, key, value));
      r.contents == c && r.event == NoEvent && r.warned && r.result == receiver
    ensures var r := ReadonlyMethod(true, Delete, receiver, c, DeleteEntry(reg, c, key));
      r.contents == c && r.event == NoEvent && r.warned && r.result == Bool(false)
    ensures var r := ReadonlyMethod(true, Clear, receiver, c, CollectionClear(c));
      r.contents == c && r.event == NoEvent && r.warned && r.result == receiver
  {
  }

  // ---------------------------------------------------------------------
  // The methods as written, against the corrected ones

  /** A value written under a wrapper key is not found by `get` or `has`
      with that same key: the write stores it under the wrapper, the reads
      look under the raw object. */
  lemma WrapperKeyLostAsWritten(reg: Registry, tm: TargetMap, weak: bool, target: Oid, p: Oid, value: Value, mode: Mode)
    requires reg.Valid() && p in reg.reactiveToRaw
    ensures var r := MapSetAsWritten(reg, Contents([], map[]), weak, target, Obj(p), value);
      && r.Change?
      && !CollectionHas(reg, r.contents, Obj(p)).result
      && MapGet(reg, tm, r.contents, Obj(p), mode).w.value == Undefined
    ensures var r := MapSet(reg, Contents([], map[]), weak, Obj(target), Obj(p), value);
      r.Change? && CollectionHas(reg, r.contents, Obj(p)).result
  {
    var raw := reg.reactiveToRaw[p];
    assert raw in reg.rawToReactive;
    assert raw != p;
  }

  /** Writing undefined under a new key of a Map adds the key, yet
      reports nothing, so an effect reading `size` or iterating is not
      told. */
  lemma NewUndefinedEntryUnreportedAsWritten(reg: Registry, target: Oid, key: Value)
    requires !key.Obj?
    ensures var c := Contents([], map[]);
      var r := MapSetAsWritten(reg, c, false, target, key, Undefined);
      && r.Change? && r.event == NoEvent
      && CollectionSize(r.contents).result == 1 && CollectionSize(c).result == 0
    ensures var c := Contents([], map[]);
      EventOf(MapSet(reg, c, false, Obj(target), key, Undefined)) == Triggers(Add, key)
  {
  }

  /** `set` and `add` as written hand back the raw target even when called
      on a wrapper of a Map or Set, so a chained write bypasses the
      wrapper; the corrected methods return the wrapper. */
  lemma ChainedWriteUnobservedAsWritten(reg: Registry, c: Contents, p: Oid, target: Oid, key: Value, value: Value)
    requires reg.Valid() && p in reg.reactiveToRaw && reg.reactiveToRaw[p] == target
    ensures !IsReactive(reg, MapSetAsWritten(reg, c, false, target, key, value).result)
    ensures !IsReactive(reg, SetAddAsWritten(reg, c, false, target, value).result)
    ensures IsReactive(reg, MapSet(reg, c, false, Obj(p), key, value).result)
    ensures IsReactive(reg, SetAdd(reg, c, false, Obj(p), value).result)
  {
    assert target in reg.rawToReactive;
    assert !IsReactive(reg, Obj(target));
  }

  // ---------------------------------------------------------------------
  // Iteration

  /** `keys`, `values`, `entries` and `[Symbol.iterator]`. */
  datatype IterationMethod = KeysMethod | ValuesMethod | EntriesMethod | IteratorMethod

  /** `isPair`: the method yields `[key, value]` arrays. */
  predicate IsPair(kind: IterationMethod, isMap: bool) {
    kind.EntriesMethod? || (kind.IteratorMethod? && isMap)
  }

  /** What an iterator yields: a value, or a `[key, value]` pair. */
  datatype Item = Single(v: Value) | Pair(first: Value, second: Value)

  /** The items the native iterator of `method` yields, in insertion order
      (a Set's keys and values are its members). */
  function InnerItems(c: Contents, kind: IterationMethod, isMap: bool): (r: seq<Item>)
    requires c.Valid()
    ensures |r| == |c.keys|
    ensures forall i :: 0 <= i < |r| ==>
      var k := c.keys[i];
      r[i] == (if IsPair(kind, isMap) then Pair(k, c.vals[k])
               else if kind.KeysMethod? then Single(k)
               else Single(c.vals[k]))
  {
    seq(|c.keys|, i requires 0 <= i < |c.keys| =>
      var k := c.keys[i];
      if IsPair(kind, isMap) then Pair(k, c.vals[k])
      else if kind.KeysMethod? then Single(k)
      else Single(c.vals[k]))
  }

  /** One result of `next()`. */
  datatype IterResult = Done(value: Value) | Next(item: Item)

  /** The wrapped tables and result of one `next()`. */
  datatype Stepped = Stepped(reg: Registry, targetMap: TargetMap, result: IterResult)

  /** Wrapping one item: both components of a pair, first the key. */
  function WrapItem(reg: Registry, tm: TargetMap, item: Item, mode: Mode): (r: Stepped)
    ensures r.result.Next? && (r.result.item.Pair? <==> item.Pair?)
  {
    match item
    case Single(v) =>
      var w := Wrap(reg, tm, v, mode);
      Stepped(w.reg, w.targetMap, Next(Single(w.value)))
    case Pair(a, b) =>
      var wa := Wrap(reg, tm, a, mode);
      var wb := Wrap(wa.reg, wa.targetMap, b, mode);
      Stepped(wb.reg, wb.targetMap, Next(Pair(wa.value, wb.value)))
  }

  /** Wrapping an item keeps the tables valid, only adds wrappers, and
      keeps the raw objects behind both components. */
  lemma WrapItemKeepsRaw(reg: Registry, tm: TargetMap, item: Item, mode: Mode)
    requires reg.Valid() && ItemAllocated(reg, item)
    ensures var r := WrapItem(reg, tm, item, mode);
      && r.reg.Valid() && Extends(reg, r.reg)
      && ItemAllocated(r.reg, r.result.item)
      && RawItem(r.reg, r.result.item) == RawItem(reg, item)
  {
    match item
    case Single(v) =>
      WrapFacts(reg, tm, v, mode);
    case Pair(a, b) =>
      WrapPairKeepsRaw(reg, tm, a, b, mode);
  }

  /** Both halves of a pair, the key first. */
  lemma WrapPairKeepsRaw(reg: Registry, tm: TargetMap, a: Value, b: Value, mode: Mode)
    requires reg.Valid() && reg.Allocated(a) && reg.Allocated(b)
    ensures var wa := Wrap(reg, tm, a, mode);
      var wb := Wrap(wa.reg, wa.targetMap, b, mode);
      && wb.reg.Valid() && Extends(reg, wb.reg)
      && wb.reg.Allocated(wa.value) && wb.reg.Allocated(wb.value)
      && ToRaw(wb.reg, wa.value) == ToRaw(reg, a) && ToRaw(wb.reg, wb.value) == ToRaw(reg, b)
  {
    WrapFacts(reg, tm, a, mode);
    var wa := Wrap(reg, tm, a, mode);
    WrapFacts(wa.reg, wa.targetMap, b, mode);
    var wb := Wrap(wa.reg, wa.targetMap, b, mode);
    ToRawStable(wa.reg, wb.reg, wa.value);
    ToRawStable(reg, wa.reg, b);
    ExtendsTransitive(reg, wa.reg, wb.reg);
  }

  predicate ItemAllocated(reg: Registry, item: Item) {
    match item
    case Single(v) => reg.Allocated(v)
    case Pair(a, b) => reg.Allocated(a) && reg.Allocated(b)
  }

  /** The raw objects behind an item. */
  function RawItem(reg: Registry, item: Item): Item {
    match item
    case Single(v) => Single(ToRaw(reg, v))
    case Pair(a, b) => Pair(ToRaw(reg, a), ToRaw(reg, b))
  }

  /** The wrapped iterator's `next()`: a finished result passes through
      untouched; otherwise every yielded value is wrapped, both halves of
      a pair when the method yields pairs. */
  function WrapNext(reg: Registry, tm: TargetMap, inner: IterResult, mode: Mode): (r: Stepped)
    ensures inner.Done? ==> r == Stepped(reg, tm, inner)
    ensures inner.Next? ==> r == WrapItem(reg, tm, inner.item, mode)
  {
    match inner
    case Done(_) => Stepped(reg, tm, inner)
    case Next(item) => WrapItem(reg, tm, item, mode)
  }

  /** Wrapping a run of items in order, threading the tables. */
  function WrapItems(reg: Registry, tm: TargetMap, items: seq<Item>, mode: Mode): (r: Stepping)
    ensures |r.items| == |items|
    ensures forall i :: 0 <= i < |items| ==> (r.items[i].Pair? <==> items[i].Pair?)
    decreases |items|
  {
    if |items| == 0 then Stepping(reg, tm, [])
    else
      var first := WrapItem(reg, tm, items[0], mode);
      var rest := WrapItems(first.reg, first.targetMap, items[1..], mode);
      Stepping(rest.reg, rest.targetMap, [first.result.item] + rest.items)
  }

  /** The tables and items after a run of wrapping. */
  datatype Stepping = Stepping(reg: Registry, targetMap: TargetMap, items: seq<Item>)

  /** Every item of a run comes out wrapped with its raw objects intact,
      and the tables stay valid. */
  lemma {:induction false} WrapItemsKeepRaw(reg: Registry, tm: TargetMap, items: seq<Item>, mode: Mode)
    requires reg.Valid() && forall i :: 0 <= i < |items| ==> ItemAllocated(reg, items[i])
    ensures var r := WrapItems(reg, tm, items, mode);
      && r.reg.Valid() && Extends(reg, r.reg)
      && forall i :: 0 <= i < |items| ==>
           ItemAllocated(r.reg, r.items[i]) && RawItem(r.reg, r.items[i]) == RawItem(reg, items[i])
    decreases |items|
  {
    if |items| > 0 {
      var first := WrapItem(reg, tm, items[0], mode);
      WrapItemKeepsRaw(reg, tm, items[0], mode);
      ItemsStable(reg, first.reg, items[1..]);
      WrapItemsKeepRaw(first.reg, first.targetMap, items[1..], mode);
      var rest := WrapItems(first.reg, first.targetMap, items[1..], mode);
      ExtendsTransitive(reg, first.reg, rest.reg);
      RawItemStable(first.reg, rest.reg, first.result.item);
      ConsRaw(reg, first.reg, rest.reg, items, first.result.item, rest.items);
    }
  }

  /** The raw objects of a wrapped run, from those of its head and tail. */
  lemma ConsRaw(reg: Registry, reg1: Registry, reg2: Registry, items: seq<Item>, head: Item, tail: seq<Item>)
    requires |items| > 0 && |tail| == |items| - 1
    requires ItemAllocated(reg2, head) && RawItem(reg2, head) == RawItem(reg, items[0])
    requires forall i :: 0 <= i < |tail| ==>
               ItemAllocated(reg2, tail[i]) && RawItem(reg2, tail[i]) == RawItem(reg1, items[1..][i])
    requires forall i :: 0 <= i < |items[1..]| ==> RawItem(reg1, items[1..][i]) == RawItem(reg, items[1..][i])
    ensures forall i :: 0 <= i < |items| ==>
              ItemAllocated(reg2, ([head] + tail)[i]) && RawItem(reg2, ([head] + tail)[i]) == RawItem(reg, items[i])
  {
    forall i | 0 <= i < |items|
      ensures ItemAllocated(reg2, ([head] + tail)[i]) && RawItem(reg2, ([head] + tail)[i]) == RawItem(reg, items[i])
    {
      if i > 0 {
        assert ([head] + tail)[i] == tail[i - 1];
        assert items[1..][i - 1] == items[i];
      }
    }
  }

  lemma ItemsStable(reg: Registry, reg': Registry, items: seq<Item>)
    requires Extends(reg, reg') && forall i :: 0 <= i < |items| ==> ItemAllocated(reg, items[i])
    ensures forall i :: 0 <= i < |items| ==> ItemAllocated(reg', items[i]) && RawItem(reg', items[i]) == RawItem(reg, items[i])
  {
    forall i | 0 <= i < |items|
      ensures ItemAllocated(reg', items[i]) && RawItem(reg', items[i]) == RawItem(reg, items[i])
    {
      RawItemStable(reg, reg', items[i]);
    }
  }

  lemma RawItemStable(reg: Registry, reg': Registry, item: Item)
    requires Extends(reg, reg') && ItemAllocated(reg, item)
    ensures ItemAllocated(reg', item) && RawItem(reg', item) == RawItem(reg, item)
  {
    match item
    case Single(v) => ToRawStable(reg, reg', v);
    case Pair(a, b) => ToRawStable(reg, reg', a); ToRawStable(reg, reg', b);
  }

  /** A run of iteration: the reported read and the wrapped items. */
  datatype Iteration = Iteration(event: Event, reg: Registry, targetMap: TargetMap, items: seq<Item>)

  /** The iterator of `createIterableMethod(method, isReadonly)` run to the
      end: ITERATE is reported, and every item the native iterator yields
      comes out wrapped in the mode of the wrapper. */
  function IterateMethod(reg: Registry, tm: TargetMap, c: Contents, kind: IterationMethod, isMap: bool, mode: Mode): (r: Iteration)
    requires c.Valid()
    ensures r.event == Tracks(Iterate, Undefined)
    ensures |r.items| == |c.keys|
  {
    var w := WrapItems(reg, tm, InnerItems(c, kind, isMap), mode);
    Iteration(Tracks(Iterate, Undefined), w.reg, w.targetMap, w.items)
  }

  /** The arguments `forEach` hands the callback for each entry, before
      wrapping: the value, then the key. */
  function ForEachItems(c: Contents): (r: seq<Item>)
    requires c.Valid()
    ensures |r| == |c.keys|
    ensures forall i :: 0 <= i < |r| ==> r[i] == Pair(c.vals[c.keys[i]], c.keys[i])
  {
    seq(|c.keys|, i requires 0 <= i < |c.keys| => Pair(c.vals[c.keys[i]], c.keys[i]))
  }

  /** `createForEach(isReadonly)`: ITERATE is reported and the callback is
      called once per entry, in insertion order, with the wrapped value and
      the wrapped key (and the wrapper itself as third argument). */
  function ForEach(reg: Registry, tm: TargetMap, c: Contents, mode: Mode): (r: Iteration)
    requires c.Valid()
    ensures r.event == Tracks(Iterate, Undefined)
    ensures |r.items| == |c.keys|
  {
    var w := WrapItems(reg, tm, ForEachItems(c), mode);
    Iteration(Tracks(Iterate, Undefined), w.reg, w.targetMap, w.items)
  }

  /** The contents hold existing values only. */
  ghost predicate ContentsAllocated(reg: Registry, c: Contents) {
    forall k :: k in c.vals ==> reg.Allocated(k) && reg.Allocated(c.vals[k])
  }

  /** Iterating hands out, position by position, exactly the entries of
      the raw collection, each wrapped: the raw objects behind the i-th item
      are the i-th key (and its value) in insertion order. */
  lemma IterationYieldsEntries(reg: Registry, tm: TargetMap, c: Contents, kind: IterationMethod, isMap: bool, mode: Mode)
    requires reg.Valid() && c.Valid() && ContentsAllocated(reg, c)
    ensures var r := IterateMethod(reg, tm, c, kind, isMap, mode);
      && r.reg.Valid()
      && forall i :: 0 <= i < |c.keys| ==>
           RawItem(r.reg, r.items[i]) == RawItem(reg, InnerItems(c, kind, isMap)[i])
  {
    var items := InnerItems(c, kind, isMap);
    forall i | 0 <= i < |items| ensures ItemAllocated(reg, items[i]) {
      assert c.keys[i] in c.vals;
    }
    WrapItemsKeepRaw(reg, tm, items, mode);
  }

  /** `forEach` hands the callback, entry by entry in insertion order, a
      value and a key whose raw objects are that entry's. */
  lemma ForEachYieldsEntries(reg: Registry, tm: TargetMap, c: Contents, mode: Mode)
    requires reg.Valid() && c.Valid() && ContentsAllocated(reg, c)
    ensures var r := ForEach(reg, tm, c, mode);
      && r.reg.Valid()
      && forall i :: 0 <= i < |c.keys| ==>
           RawItem(r.reg, r.items[i]) == Pair(ToRaw(reg, c.vals[c.keys[i]]), ToRaw(reg, c.keys[i]))
  {
    var items := ForEachItems(c);
    forall i | 0 <= i < |items| ensures ItemAllocated(reg, items[i]) {
      assert c.keys[i] in c.vals;
    }
    WrapItemsKeepRaw(reg, tm, items, mode);
  }

  /** A finished `next()` result is handed on as it is. */
  lemma DonePassesThrough(reg: Registry, tm: TargetMap, v: Value, mode: Mode)
    ensures WrapNext(reg, tm, Done(v), mode) == Stepped(reg, tm, Done(v))
  {
  }

  // ---------------------------------------------------------------------
  // Which methods are instrumented

  /** The own keys of both instrumentation tables. */
  const InstrumentedKeys: set<Value> :=
    {Str("get"), Str("size"), Str("has"), Str("add"), Str("set"), Str("delete"), Str("clear"),
     Str("forEach"), Str("keys"), Str("values"), Str("entries"), SymbolIterator}

  /** The members of each collection class among those keys (`key in
      target` for a collection without own properties of these names). */
  function NativeMembers(kind: ObjectKind): set<Value> {
    match kind
    case MapObject =>
      {Str("get"), Str("set"), Str("has"), Str("delete"), Str("clear"), Str("size"),
       Str("forEach"), Str("keys"), Str("values"), Str("entries"), SymbolIterator}
    case SetObject =>
      {Str("add"), Str("has"), Str("delete"), Str("clear"), Str("size"),
       Str("forEach"), Str("keys"), Str("values"), Str("entries"), SymbolIterator}
    case WeakMapObject => {Str("get"), Str("set"), Str("has"), Str("delete")}
    case WeakSetObject => {Str("add"), Str("has"), Str("delete")}
    case _ => {}
  }

  /** Where the `get` trap of a collection wrapper takes a property from. */
  datatype Resolution = FromInstrumentation | FromTarget

  /** `createInstrumentationGetter`: the instrumented member is used only
      when the key is an own key of the table and `key in target` holds. */
  function Resolve(key: Value, keyInTarget: bool): (r: Resolution)
    ensures r.FromInstrumentation? <==> key in InstrumentedKeys && keyInTarget
  {
    if key in InstrumentedKeys && keyInTarget then FromInstrumentation else FromTarget
  }

  /** Each class gets exactly its own native methods instrumented: a Map
      wrapper has no `add`, a Set wrapper no `get` or `set`, and the weak
      collections neither `size`, `clear`, `forEach` nor iteration. */
  lemma InstrumentedMembers(kind: ObjectKind, key: Value)
    requires kind.IsCollection()
    ensures Resolve(key, key in NativeMembers(kind)).FromInstrumentation? <==> key in NativeMembers(kind)
    ensures kind.MapObject? ==> Resolve(Str("add"), Str("add") in NativeMembers(kind)).FromTarget?
    ensures kind.SetObject? ==> Resolve(Str("get"), Str("get") in NativeMembers(kind)).FromTarget?
    ensures kind.SetObject? ==> Resolve(Str("set"), Str("set") in NativeMembers(kind)).FromTarget?
    ensures kind.WeakMapObject? || kind.WeakSetObject? ==>
              Resolve(Str("size"), Str("size") in NativeMembers(kind)).FromTarget?
              && Resolve(SymbolIterator, SymbolIterator in NativeMembers(kind)).FromTarget?
  {
  }
}
