/** JavaScript values as the reactivity core sees them: objects are compared
    by identity, so an object is just its identity; everything else is
    compared by value. */
module Values {

  /** Identity of a heap object (a raw container, a wrapper, a ref, ...). */
  type Oid = nat

  /** Identity of a user function (an effect body, a getter, a setter). */
  type FnId = nat

  datatype Value =
    | Undefined
    | Null
    | Bool(b: bool)
    | Num(n: int)
    | Str(s: string)
      /** A symbol; `wellKnown` marks the built-in ones held by the global
          `Symbol` (`Symbol.iterator`, `Symbol.isConcatSpreadable`, ...). */
    | Sym(id: nat, wellKnown: bool)
      /** The engine's private `ITERATE_KEY` symbol. */
    | IterateKey
      /** A function value: not an object for `isObject`. */
    | Function(fn: FnId)
    | Obj(id: Oid)

  /** `isObject`: non-null and of type 'object'. */
  predicate IsObject(v: Value) {
    v.Obj?
  }

  /** Membership in `builtInSymbols`, the symbols held by the global `Symbol`. */
  predicate IsBuiltInSymbol(v: Value) {
    v.Sym? && v.wellKnown
  }

  /** The key `trigger` uses as iteration marker for arrays. */
  const LengthKey: Value := Str("length")

  /** `Symbol.iterator`, a built-in symbol. */
  const SymbolIterator: Value := Sym(0, true)

  /** The fixed key under which a ref tracks and triggers its one slot. */
  const RefSlotKey: Value := Str("")

  /** A sequence used as an insertion-ordered set. */
  ghost predicate NoDup<T>(s: seq<T>) {
    forall i, j :: 0 <= i < j < |s| ==> s[i] != s[j]
  }

  /** The position of `x` in `s`. */
  function IndexOf<T(==)>(s: seq<T>, x: T): (i: nat)
    requires x in s
    ensures i < |s| && s[i] == x && x !in s[..i]
  {
    if s[0] == x then 0 else 1 + IndexOf(s[1..], x)
  }

  /** `Set.prototype.delete` on an insertion-ordered set: the survivors keep
      their order, so a later iteration visits them as before. */
  function Remove<T(==,!new)>(s: seq<T>, x: T): (r: seq<T>)
    ensures forall y :: y in r <==> y in s && y != x
    ensures |r| <= |s|
    ensures NoDup(s) ==> NoDup(r)
    ensures x !in s ==> r == s
  {
    if |s| == 0 then []
    else if s[0] == x then Remove(s[1..], x)
    else
      var tail := Remove(s[1..], x);
      assert NoDup(s) ==> s[0] !in s[1..];
      assert x !in s ==> [s[0]] + tail == s;
      [s[0]] + tail
  }

  /** Deleting a member of an insertion-ordered set cuts it out at its
      position: the members before and after it keep their order. */
  lemma {:induction false} RemoveKeepsOrder<T(!new)>(s: seq<T>, x: T)
    requires NoDup(s) && x in s
    ensures Remove(s, x) == s[..IndexOf(s, x)] + s[IndexOf(s, x) + 1..]
  {
    if s[0] == x {
      assert x !in s[1..];
    } else {
      assert NoDup(s[1..]);
      RemoveKeepsOrder(s[1..], x);
      assert s[..IndexOf(s, x)] == [s[0]] + s[1..][..IndexOf(s[1..], x)];
    }
  }

  /** `Set.prototype.add` on an insertion-ordered set: appended when new. */
  function Insert<T(==,!new)>(s: seq<T>, x: T): (r: seq<T>)
    ensures forall y :: y in r <==> y in s || y == x
    ensures x in s ==> r == s
    ensures x !in s ==> r == s + [x]
    ensures NoDup(s) ==> NoDup(r)
  {
    if x in s then s else s + [x]
  }
}
