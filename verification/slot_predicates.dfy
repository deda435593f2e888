/**
  `connection_slot_pair` and the two activity predicates the signal's slot
  list is filtered with. The slot itself is a type-erased payload, modelled
  as a type parameter the predicates never look at.
 */
module SlotPredicates {
  import opened Connections

  datatype ConnectionSlotPair<S> = ConnectionSlotPair(first: Connection, second: S)

  /** `connection_slot_pair(c, a)`: the pair holds a copy of the handle. */
  function MakePair<S>(c: Connection, a: S): (p: ConnectionSlotPair<S>)
    ensures Eq(p.first, c)
    ensures forall s: Store :: Connected(s, p.first) == Connected(s, c)
    ensures forall s: Store :: Blocked(s, p.first) == Blocked(s, c)
    ensures p.second == a
  {
    ConnectionSlotPair(Copy(c), a)
  }

  /** `is_disconnected`: the pair's handle no longer reports connected. */
  predicate IsDisconnected<S>(store: Store, p: ConnectionSlotPair<S>)
  {
    !Connected(store, p.first)
  }

  /** `is_callable`: the pair's handle is connected and not blocked. */
  predicate IsCallable<S>(store: Store, p: ConnectionSlotPair<S>)
  {
    Connected(store, p.first) && !Blocked(store, p.first)
  }

  /** Every pair is in exactly one of three states: disconnected, connected
      but blocked, or callable. So callable implies not disconnected and a
      disconnected pair is never callable. */
  lemma ActivityPartition<S>(store: Store, p: ConnectionSlotPair<S>)
    ensures IsCallable(store, p) ==> !IsDisconnected(store, p)
    ensures IsDisconnected(store, p) ==> !IsCallable(store, p)
    ensures IsCallable(store, p) <==> !IsDisconnected(store, p) && !Blocked(store, p.first)
  {
  }

  /** Both predicates depend only on what `connected()` and `blocked()`
      report: never on the payload, and a handle whose slot reference is
      gone or empty is disconnected. */
  lemma PredicatesReadOnlyHandleState<S>(store: Store, p: ConnectionSlotPair<S>, q: ConnectionSlotPair<S>)
    requires Connected(store, p.first) == Connected(store, q.first)
    requires Blocked(store, p.first) == Blocked(store, q.first)
    ensures IsDisconnected(store, p) == IsDisconnected(store, q)
    ensures IsCallable(store, p) == IsCallable(store, q)
    ensures p.first.slot.None? ==> IsDisconnected(store, p) && !IsCallable(store, p)
    ensures p.first.slot.Some? && p.first.slot.value !in store ==> IsDisconnected(store, p)
  {
  }

  /** The pairs of `slots` that `is_disconnected` rejects, in their order. */
  function ConnectedOnly<S>(store: Store, slots: seq<ConnectionSlotPair<S>>): seq<ConnectionSlotPair<S>>
  {
    if |slots| == 0 then []
    else if IsDisconnected(store, slots[0]) then ConnectedOnly(store, slots[1..])
    else [slots[0]] + ConnectedOnly(store, slots[1..])
  }

  /** The surviving pairs are exactly the connected ones of the input, each
      as often as it occurs there; in particular no callable pair is lost. */
  lemma {:induction false} ConnectedOnlyKeepsExactlyConnected<S>(store: Store, slots: seq<ConnectionSlotPair<S>>)
    ensures forall p :: p in ConnectedOnly(store, slots) ==> p in slots && !IsDisconnected(store, p)
    ensures forall p :: p in slots && !IsDisconnected(store, p) ==> p in ConnectedOnly(store, slots)
    ensures forall p :: p in slots && IsCallable(store, p) ==> p in ConnectedOnly(store, slots)
    ensures forall p :: multiset(ConnectedOnly(store, slots))[p]
                     == if IsDisconnected(store, p) then 0 else multiset(slots)[p]
    ensures |ConnectedOnly(store, slots)| <= |slots|
  {
    if |slots| > 0 {
      ConnectedOnlyKeepsExactlyConnected(store, slots[1..]);
      assert slots == [slots[0]] + slots[1..];
      assert multiset(slots) == multiset{slots[0]} + multiset(slots[1..]);
    }
  }

  /** Step lemma for the `RemoveDisconnected` loop: filtering a list with one
      more pair at the end filters the prefix and then that pair. */
  lemma ConnectedOnlyAppend<S>(store: Store, a: seq<ConnectionSlotPair<S>>, p: ConnectionSlotPair<S>)
    ensures ConnectedOnly(store, a + [p])
         == ConnectedOnly(store, a) + (if IsDisconnected(store, p) then [] else [p])
  {
    if |a| > 0 {
      assert (a + [p])[1..] == a[1..] + [p];
      ConnectedOnlyAppend(store, a[1..], p);
    }
  }

  /** Removing the disconnected pairs from a slot list, as the signal does
      with `is_disconnected`: the order of the survivors is kept. */
  method RemoveDisconnected<S>(store: Store, slots: seq<ConnectionSlotPair<S>>)
    returns (kept: seq<ConnectionSlotPair<S>>)
    ensures kept == ConnectedOnly(store, slots)
    ensures forall i :: 0 <= i < |kept| ==> kept[i] in slots && !IsDisconnected(store, kept[i])
    ensures forall j :: 0 <= j < |slots| && IsCallable(store, slots[j]) ==> slots[j] in kept
    ensures |kept| <= |slots|
  {
    kept := [];
    var i := 0;
    while i < |slots|
      invariant 0 <= i <= |slots|
      invariant kept == ConnectedOnly(store, slots[..i])
    {
      ConnectedOnlyAppend(store, slots[..i], slots[i]);
      assert slots[..i + 1] == slots[..i] + [slots[i]];
      if !IsDisconnected(store, slots[i]) {
        kept := kept + [slots[i]];
      }
      i := i + 1;
    }
    assert slots[..i] == slots;
    ConnectedOnlyKeepsExactlyConnected(store, slots);
  }
}
