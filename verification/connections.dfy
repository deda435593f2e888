/**
  The `connection` handle of Boost.Signals and the default `scoped_connection`.

  A handle is a pair: a weak reference to the slot's shared connection state
  and an identity token. The weak reference is an optional index into a store
  of connection states; an index that is absent from the store is an expired
  weak pointer. The identity token is the address the original handle was
  constructed at; `World` records the addresses already given to handles, and
  a new handle is built at one outside that set.

  `connected()` and `blocked()` are defined out of line; here they are pure
  reads of the store and nothing mutates it.
 */
module Connections {
  import BoundObjects

  /** Identity of the handle that first created a connection value: the
      address that handle was constructed at. */
  type Token = BoundObjects.Addr

  /** Index of a slot's shared connection state. */
  type SlotRef = nat

  /** What the out-of-line `connected()` and `blocked()` report for a slot. */
  datatype SlotStatus = SlotStatus(connected: bool, blocked: bool)

  /** The shared connection states the weak references observe. */
  type Store = map<SlotRef, SlotStatus>

  /** The store plus the identities already given to handles. */
  datatype World = World(store: Store, issued: set<Token>)

  datatype Connection = Connection(slot: Option<SlotRef>, identity: Token)

  datatype Option<T> = None | Some(value: T)

  /** `scoped_connection`: a handle plus the flag that says whether `release()`
      has given up the disconnect-on-destruction duty. */
  datatype ScopedConnection = ScopedConnection(base: Connection, released: bool)

  /** A handle whose identity was handed out before the world reached `w`. */
  predicate Issued(w: World, c: Connection)
  {
    c.identity in w.issued
  }

  /** Reads the state the weak reference observes, if it is still alive. */
  function Status(store: Store, c: Connection): Option<SlotStatus>
  {
    match c.slot
    case None => None
    case Some(r) => if r in store then Some(store[r]) else None
  }

  /** `connected()`: a handle with no live slot reads as not connected. */
  predicate Connected(store: Store, c: Connection)
  {
    Status(store, c).Some? && Status(store, c).value.connected
  }

  /** `blocked()`: a handle with no live slot reads as not blocked. */
  predicate Blocked(store: Store, c: Connection)
  {
    Status(store, c).Some? && Status(store, c).value.blocked
  }

  /** `connection()` built at address `at`: no slot reference and the
      handle's own address as identity, which no earlier handle holds. */
  function DefaultConnection(w: World, at: Token): (r: (Connection, World))
    requires at !in w.issued
    ensures r.0.slot == None && r.0.identity == at
    ensures !Issued(w, r.0) && Issued(r.1, r.0)
    ensures r.1.store == w.store && r.1.issued == w.issued + {at}
    ensures forall d: Connection :: Issued(w, d) ==> Issued(r.1, d)
    ensures !Connected(w.store, r.0) && !Blocked(w.store, r.0)
  {
    (Connection(None, at), w.(issued := w.issued + {at}))
  }

  /** `connection(const connection&)`: the slot reference and the identity
      travel together, so the copy is equal to its source and observes the
      same slot state in every store. */
  function Copy(other: Connection): (r: Connection)
    ensures Eq(r, other) && Eq(other, r)
    ensures r.slot == other.slot
    ensures forall s: Store :: Connected(s, r) == Connected(s, other)
    ensures forall s: Store :: Blocked(s, r) == Blocked(s, other)
  {
    Connection(other.slot, other.identity)
  }

  /** `operator=`: whatever the target held before, afterwards it holds the
      source's slot reference and identity. */
  function Assign(target: Connection, source: Connection): (r: Connection)
    ensures Eq(r, source)
    ensures r.slot == source.slot
    ensures forall d: Connection :: Eq(r, d) == Eq(source, d) && Less(r, d) == Less(source, d)
    ensures forall s: Store :: Connected(s, r) == Connected(s, source)
  {
    target.(slot := source.slot, identity := source.identity)
  }

  /** `swap`: the slot references are exchanged and so are the identities;
      the first result is the new `*this`, the second the new `other`. */
  function Swap(self: Connection, other: Connection): (r: (Connection, Connection))
    ensures r.0.slot == other.slot && r.1.slot == self.slot
    ensures Eq(r.0, other) && Eq(r.1, self)
    ensures forall s: Store :: Connected(s, r.0) == Connected(s, other)
    ensures forall s: Store :: Connected(s, r.1) == Connected(s, self)
  {
    var afterSlotSwap := (self.(slot := other.slot), other.(slot := self.slot));
    (afterSlotSwap.0.(identity := other.identity), afterSlotSwap.1.(identity := self.identity))
  }

  /** `operator==`: same identity, whatever the slot references. */
  predicate Eq(a: Connection, b: Connection)
  {
    a.identity == b.identity
  }

  /** `operator<`: identity order. */
  predicate Less(a: Connection, b: Connection)
  {
    a.identity < b.identity
  }

  /** The operators the `equality_comparable1` and `less_than_comparable1`
      bases derive from `==` and `<`. */
  predicate Neq(a: Connection, b: Connection) { !Eq(a, b) }
  predicate Greater(a: Connection, b: Connection) { Less(b, a) }
  predicate LessEq(a: Connection, b: Connection) { !Less(b, a) }
  predicate GreaterEq(a: Connection, b: Connection) { !Less(a, b) }

  /** `scoped_connection()`: a fresh unattached handle that has not been
      released, so it still owns the duty to disconnect. */
  function DefaultScoped(w: World, at: Token): (r: (ScopedConnection, World))
    requires at !in w.issued
    ensures !r.0.released
    ensures r.0.base.slot == None && r.0.base.identity == at
    ensures !Issued(w, r.0.base) && Issued(r.1, r.0.base)
    ensures r.1.store == w.store && r.1.issued == w.issued + {at}
    ensures forall d: Connection :: Issued(w, d) ==> Issued(r.1, d)
  {
    var (c, w') := DefaultConnection(w, at);
    (ScopedConnection(c, false), w')
  }

  /** A default-constructed handle differs from every handle whose identity
      was handed out earlier. */
  lemma DefaultIsFresh(w: World, at: Token, d: Connection)
    requires at !in w.issued && Issued(w, d)
    ensures !Eq(DefaultConnection(w, at).0, d) && Neq(d, DefaultConnection(w, at).0)
  {
  }

  /** Handle order follows addresses, not construction order: a handle built
      later at a lower address sorts before an earlier one. */
  lemma NewHandleMaySortFirst()
    ensures Less(DefaultConnection(World(map[], {5}), 3).0, Connection(None, 5))
    ensures Issued(World(map[], {5}), Connection(None, 5))
  {
  }

  /** The default `scoped_connection` is the default `connection` base with
      `released_` cleared: same empty slot, same fresh identity. */
  lemma DefaultScopedIsDefaultConnection(w: World, at: Token)
    requires at !in w.issued
    ensures DefaultScoped(w, at).0 == ScopedConnection(DefaultConnection(w, at).0, false)
    ensures DefaultScoped(w, at).1 == DefaultConnection(w, at).1
  {
  }

  /** Comparisons look at the identity alone: replacing or clearing either
      slot reference, as disconnection does, never changes them. */
  lemma ComparisonIgnoresSlot(a: Connection, b: Connection, ra: Option<SlotRef>, rb: Option<SlotRef>)
    ensures Eq(a.(slot := ra), b.(slot := rb)) == Eq(a, b)
    ensures Less(a.(slot := ra), b.(slot := rb)) == Less(a, b)
  {
  }

  /** A copy still compares equal to its source after the source's slot
      state has changed or gone away entirely. */
  lemma CopyEqualAfterDisconnect(c: Connection, s': Store)
    ensures Eq(Copy(c), c)
    ensures Connected(s', Copy(c)) == Connected(s', c)
    ensures Eq(Copy(c).(slot := None), c)
  {
  }

  /** Handles are totally ordered up to identity: exactly one of `<`, `==`
      and `>` holds, and the derived operators agree with them. */
  lemma ConnectionOrderIsTotal(a: Connection, b: Connection, c: Connection)
    ensures (Less(a, b) && !Eq(a, b) && !Greater(a, b))
         || (!Less(a, b) && Eq(a, b) && !Greater(a, b))
         || (!Less(a, b) && !Eq(a, b) && Greater(a, b))
    ensures Less(a, b) && Less(b, c) ==> Less(a, c)
    ensures LessEq(a, b) <==> Less(a, b) || Eq(a, b)
    ensures GreaterEq(a, b) <==> Greater(a, b) || Eq(a, b)
    ensures Neq(a, b) <==> !Eq(a, b)
  {
  }

  /** Swapping twice restores both handles exactly. */
  lemma SwapTwiceRestores(a: Connection, b: Connection)
    ensures Swap(Swap(a, b).0, Swap(a, b).1) == (a, b)
  {
  }
}
