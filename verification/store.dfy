/** The dependency store declared in reactive.ts: `targetMap` maps a raw
    target to its `KeyToDepMap`, which maps a key to its `Dep`, the set of
    effects subscribed to that (target, key) pair. */
module Store {
  import opened Values

  /** Identity of an effect handle. */
  type EffectId = nat

  /** A `Dep` is a JavaScript `Set` of effects; iteration follows
      insertion order, so it is kept as a sequence without duplicates. */
  type Dep = seq<EffectId>

  /** A JavaScript `Map` from key to `Dep`: `keys` keeps the insertion order
      that `forEach` (used by a CLEAR trigger) follows. Entries are never
      removed, so a `Dep` lives as long as its target. */
  datatype KeyToDepMap = KeyToDepMap(keys: seq<Value>, deps: map<Value, Dep>) {

    ghost predicate Valid() {
      && NoDup(keys)
      && (forall k :: k in keys <==> k in deps)
      && (forall k :: k in deps ==> NoDup(deps[k]))
    }

    /** `depsMap.get(key)`, with an absent entry read as the empty set. */
    function Lookup(key: Value): Dep {
      if key in deps then deps[key] else []
    }

    /** `dep.add(e)` on the existing dep of `key`. */
    function AddTo(key: Value, e: EffectId): (r: KeyToDepMap)
      requires key in deps
      ensures r.keys == keys && r.deps.Keys == deps.Keys
      ensures r.Lookup(key) == Insert(Lookup(key), e)
      ensures forall k :: k != key ==> r.Lookup(k) == Lookup(k)
      ensures Valid() ==> r.Valid()
    {
      this.(deps := deps[key := Insert(deps[key], e)])
    }
  }

  const EmptyDepsMap := KeyToDepMap([], map[])

  /** `targetMap` (a `WeakMap`; collection of dead targets is not modelled). */
  type TargetMap = map<Oid, KeyToDepMap>

  /** Names one `Dep`: since entries are never removed, the pair
      (target, key) identifies the `Set` object held in `targetMap`. */
  datatype DepRef = DepRef(target: Oid, key: Value)

  ghost predicate ValidTargetMap(tm: TargetMap) {
    forall t :: t in tm ==> tm[t].Valid()
  }

  /** The members of the dep named by `d`; empty when it does not exist. */
  function Subscribers(tm: TargetMap, d: DepRef): Dep {
    if d.target in tm then tm[d.target].Lookup(d.key) else []
  }

  /** Two target maps with the same targets and, per target, the same keys
      in the same order. */
  ghost predicate SameShape(tm: TargetMap, tm': TargetMap) {
    && (forall t :: t in tm <==> t in tm')
    && (forall t :: t in tm ==> tm'[t].keys == tm[t].keys && tm'[t].deps.Keys == tm[t].deps.Keys)
  }

  lemma SameShapeTrans(tm1: TargetMap, tm2: TargetMap, tm3: TargetMap)
    requires SameShape(tm1, tm2) && SameShape(tm2, tm3)
    ensures SameShape(tm1, tm3)
  {
  }

  /** `if (!targetMap.has(target)) targetMap.set(target, new Map())`. */
  function EnsureTarget(tm: TargetMap, target: Oid): (r: TargetMap)
    ensures target in r
    ensures target in tm ==> r == tm
    ensures target !in tm ==> r == tm[target := EmptyDepsMap]
    ensures forall d :: Subscribers(r, d) == Subscribers(tm, d)
    ensures ValidTargetMap(tm) ==> ValidTargetMap(r)
  {
    if target in tm then tm else tm[target := EmptyDepsMap]
  }

  /** The get-or-create steps of `track`: afterwards the dep named by `d`
      exists; no subscription changes. */
  function EnsureDep(tm: TargetMap, d: DepRef): (r: TargetMap)
    ensures d.target in r && d.key in r[d.target].deps
    ensures forall d' :: Subscribers(r, d') == Subscribers(tm, d')
    ensures forall t :: t in r <==> t in tm || t == d.target
    ensures forall t :: t in tm && t != d.target ==> r[t] == tm[t]
    ensures ValidTargetMap(tm) ==> ValidTargetMap(r)
  {
    var tm1 := EnsureTarget(tm, d.target);
    var dm := tm1[d.target];
    if d.key in dm.deps then tm1
    else
      var dm' := KeyToDepMap(dm.keys + [d.key], dm.deps[d.key := []]);
      assert dm.Valid() ==> dm'.Valid() by {
        if dm.Valid() {
          assert d.key !in dm.keys;
        }
      }
      tm1[d.target := dm']
  }

  /** `dep.add(e)` on the dep named by `d` (created if missing). */
  function AddSubscriber(tm: TargetMap, d: DepRef, e: EffectId): (r: TargetMap)
    ensures Subscribers(r, d) == Insert(Subscribers(tm, d), e)
    ensures forall d' :: d' != d ==> Subscribers(r, d') == Subscribers(tm, d')
    ensures d.target in r && d.key in r[d.target].deps
    ensures forall t :: t in r <==> t in tm || t == d.target
    ensures ValidTargetMap(tm) ==> ValidTargetMap(r)
  {
    var tm1 := EnsureDep(tm, d);
    tm1[d.target := tm1[d.target].AddTo(d.key, e)]
  }

  /** `dep.delete(e)` on the dep named by `d`; nothing when it is missing. */
  function RemoveSubscriber(tm: TargetMap, d: DepRef, e: EffectId): (r: TargetMap)
    ensures Subscribers(r, d) == Remove(Subscribers(tm, d), e)
    ensures forall d' :: d' != d ==> Subscribers(r, d') == Subscribers(tm, d')
    ensures SameShape(tm, r)
    ensures ValidTargetMap(tm) ==> ValidTargetMap(r)
  {
    if d.target in tm && d.key in tm[d.target].deps then
      var dm := tm[d.target];
      tm[d.target := dm.(deps := dm.deps[d.key := Remove(dm.deps[d.key], e)])]
    else tm
  }
}
