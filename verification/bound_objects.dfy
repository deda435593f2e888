/**
  The `bound_object` record of Boost.Signals: one object a slot was bound to,
  the opaque context handed back on disconnect, and the callback that tells
  the object its connection is gone.

  Raw pointers (`void*`) are modelled as natural numbers ordered like
  addresses; the disconnect function pointer is an opaque callback token.
 */
module BoundObjects {

  /** An object or context address. */
  type Addr = nat

  /** Identifies the `disconnect(void*, void*)` function a binding carries. */
  type Callback = nat

  datatype BoundObject = BoundObject(obj: Addr, data: Addr, disconnect: Callback)

  /** `operator==`: the object and its context must both match; the callback
      is not compared. */
  predicate Eq(a: BoundObject, b: BoundObject)
  {
    a.obj == b.obj && a.data == b.data
  }

  /** `operator!=`, written as the negation of `operator==`. */
  predicate Neq(a: BoundObject, b: BoundObject)
  {
    !Eq(a, b)
  }

  /** `operator<`: bindings are ordered by object address alone. */
  predicate Less(a: BoundObject, b: BoundObject)
  {
    a.obj < b.obj
  }

  /** `operator>` exactly as the header writes it: "not less than". */
  predicate GreaterAsWritten(a: BoundObject, b: BoundObject)
  {
    !Less(a, b)
  }

  /** `operator>` as a strict greater-than: the converse of `operator<`. */
  predicate Greater(a: BoundObject, b: BoundObject)
  {
    Less(b, a)
  }

  /** Equality is exactly "same object and same context", and `!=` is its
      exact negation; the callback never matters. */
  lemma EqualityIsObjectAndData(a: BoundObject, b: BoundObject)
    ensures Eq(a, b) <==> (a.obj == b.obj && a.data == b.data)
    ensures Neq(a, b) <==> !Eq(a, b)
    ensures forall f: Callback, g: Callback ::
      Eq(a.(disconnect := f), b.(disconnect := g)) == Eq(a, b)
  {
  }

  /** Ordering sees the object address only: two bindings of the same object
      are never ordered either way, whatever their contexts, so when the
      contexts differ the pair is neither equal nor ordered. */
  lemma OrderIgnoresData(a: BoundObject, b: BoundObject)
    requires a.obj == b.obj
    ensures !Less(a, b) && !Less(b, a)
    ensures a.data != b.data ==> !Eq(a, b) && !Less(a, b) && !Less(b, a)
  {
  }

  /** `operator<` is a strict weak ordering whose equivalence classes are
      "same object", which is coarser than `operator==`. */
  lemma LessIsStrictWeakOrder(a: BoundObject, b: BoundObject, c: BoundObject)
    ensures !Less(a, a)
    ensures Less(a, b) && Less(b, c) ==> Less(a, c)
    ensures Less(a, b) ==> !Less(b, a)
    ensures Eq(a, b) ==> !Less(a, b) && !Less(b, a)
    ensures !Less(a, b) && !Less(b, a) <==> a.obj == b.obj
  {
  }

  /** The header's `operator>` holds of every binding against itself, and
      holds whenever `<` does not: it is `>=` on object addresses. */
  lemma GreaterAsWrittenIsReflexive(a: BoundObject, b: BoundObject)
    ensures GreaterAsWritten(a, a)
    ensures GreaterAsWritten(a, b) <==> a.obj >= b.obj
    ensures a.obj == b.obj ==> GreaterAsWritten(a, b) && GreaterAsWritten(b, a)
  {
  }

  /** A concrete witness: the same binding is "greater" than itself. */
  lemma GreaterAsWrittenCounterexample()
    ensures GreaterAsWritten(BoundObject(1, 0, 0), BoundObject(1, 0, 0))
    ensures !Greater(BoundObject(1, 0, 0), BoundObject(1, 0, 0))
  {
  }

  /** The corrected `>` is irreflexive, is the converse of `<`, and differs
      from the written one exactly on bindings of the same object. */
  lemma GreaterIsConverseOfLess(a: BoundObject, b: BoundObject)
    ensures !Greater(a, a)
    ensures Greater(a, b) <==> Less(b, a)
    ensures Greater(a, b) ==> !Greater(b, a)
    ensures GreaterAsWritten(a, b) <==> Greater(a, b) || a.obj == b.obj
  {
  }
}
