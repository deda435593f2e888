# Boost.Signals connection handles, in Dafny

This project models the connection-handle layer of Boost.Signals as declared in
`include/boost/signals/connection.hpp`:

- `bound_object`: an object a slot was bound to, the context passed back to
  it, and its disconnect callback, with `==`, `!=`, `<` and `>`
  (module `BoundObjects`);
- `connection`: a weak slot reference plus an identity token, with default
  construction, copy, assignment, swap and identity-based comparison; and the
  default `scoped_connection` (module `Connections`);
- `connection_slot_pair` and the `is_disconnected` / `is_callable` predicates
  the signal filters its slot list with (module `SlotPredicates`);
- `auto_disconnect_bound_object`, the one-shot guard that calls a binding's
  disconnect callback when it is destroyed while still armed
  (module `AutoDisconnect`).

Modelling choices:

- Raw pointers (`void*`) are natural numbers (`BoundObjects.Addr`, shared by
  `Connections.Token`), ordered like addresses in a flat address space. Function
  pointers are opaque callback tokens.
- The `weak_ptr` to the slot's connection interface is an optional index into
  a store (`map<SlotRef, SlotStatus>`). An index missing from the store stands
  for an expired weak pointer.
- `connected()` and `blocked()` are defined outside the header. Here they are
  pure reads of the store. A handle with no live slot reads as not connected
  and not blocked. Nothing in the model changes the store.
- `identity_ = this` is modelled by passing the new handle's address to the
  default constructor. `World` records the addresses already given to handles,
  and the constructor requires an address outside that set, as a fresh object
  would get. Nothing relates addresses to construction order. Copies and
  assignments carry the identity along unchanged.
- A call of the foreign disconnect callback is an `Invoke(callback, obj, data)`
  event appended to a trace.
- The type-erased `any` slot payload is a type parameter.
- The comparison operators that the `less_than_comparable1` and
  `equality_comparable1` bases derive from `<` and `==` are written out as
  `Neq`, `Greater`, `LessEq` and `GreaterEq` in `Connections`.
- `RemoveDisconnected` models how the signal uses `is_disconnected`:
  removing the disconnected pairs from its slot list. That call site is not
  part of this header. It is included as the use the predicate's function-object
  shape is meant for.

## Model

| member | source | states |
|---|---|---|
| BoundObjects.Eq | include/boost/signals/connection.hpp:39-40 | Definition of `operator==`: object and context both match (no contract; the body is the definition) |
| BoundObjects.Neq | include/boost/signals/connection.hpp:45-46 | Definition of `operator!=`: the negation of `operator==` (no contract; the body is the definition) |
| BoundObjects.Less | include/boost/signals/connection.hpp:41-42 | Definition of `operator<`: object addresses compared (no contract; the body is the definition) |
| BoundObjects.GreaterAsWritten | include/boost/signals/connection.hpp:47-48 | Definition of `operator>` as written: not less than (no contract; the body is the definition) |
| BoundObjects.Greater | include/boost/signals/connection.hpp:47-48 | Corrected `operator>`: the converse of `<` (no contract; the body is the definition) |
| BoundObjects.EqualityIsObjectAndData | include/boost/signals/connection.hpp:39-46 | Two bindings are equal exactly when object and context match, the callback never matters, and `!=` is the exact negation of `==` |
| BoundObjects.OrderIgnoresData | include/boost/signals/connection.hpp:39-42 | Bindings of the same object are never ordered either way. With different contexts they are neither equal nor ordered |
| BoundObjects.LessIsStrictWeakOrder | include/boost/signals/connection.hpp:41-42 | `<` is irreflexive, asymmetric and transitive. Two bindings are unordered exactly when they share an object, so equal bindings are unordered |
| BoundObjects.GreaterAsWrittenIsReflexive | include/boost/signals/connection.hpp:47-48 | The header's `>` holds of every binding against itself and means `>=` on object addresses |
| BoundObjects.GreaterAsWrittenCounterexample | include/boost/signals/connection.hpp:47-48 | A concrete binding is `>` itself under the written operator but not under the corrected one |
| BoundObjects.GreaterIsConverseOfLess | include/boost/signals/connection.hpp:41-48 | The corrected `>` is irreflexive and the converse of `<`. It differs from the written one exactly on bindings of the same object |
| Connections.Connected | include/boost/signals/connection.hpp:97-98 | `connected()` as a read of the store: true only for a live slot reference whose state says connected (no contract; the body is the definition) |
| Connections.Blocked | include/boost/signals/connection.hpp:91-92 | `blocked()` as a read of the store: false for a handle with no live slot reference (no contract; the body is the definition) |
| Connections.Eq | include/boost/signals/connection.hpp:101-103 | Definition of `operator==`: identities equal (no contract; the body is the definition) |
| Connections.Less | include/boost/signals/connection.hpp:104-106 | Definition of `operator<`: identities ordered (no contract; the body is the definition) |
| Connections.Neq | include/boost/signals/connection.hpp:68-70 | `!=` derived by the `equality_comparable1` base as `!(a == b)` (no contract; the body is the definition) |
| Connections.Greater | include/boost/signals/connection.hpp:68-70 | `>` derived by the `less_than_comparable1` base as `b < a` (no contract; the body is the definition) |
| Connections.LessEq | include/boost/signals/connection.hpp:68-70 | `<=` derived by the `less_than_comparable1` base as `!(b < a)` (no contract; the body is the definition) |
| Connections.GreaterEq | include/boost/signals/connection.hpp:68-70 | `>=` derived by the `less_than_comparable1` base as `!(a < b)` (no contract; the body is the definition) |
| Connections.DefaultConnection | include/boost/signals/connection.hpp:73-77 | A default handle built at a fresh address has no slot reference, reads as neither connected nor blocked, and takes that address as its identity. The address joins the issued set and earlier handles stay issued |
| Connections.NewHandleMaySortFirst | include/boost/signals/connection.hpp:75-77 | Construction order says nothing about handle order: a handle built at a lower free address sorts before an earlier handle |
| Connections.DefaultIsFresh | include/boost/signals/connection.hpp:73-77 | A default handle is unequal to every handle issued before it |
| Connections.Copy | include/boost/signals/connection.hpp:78-81 | A copy keeps the slot reference and identity, compares equal to its source both ways, and reports the same connected and blocked state in every store |
| Connections.Assign | include/boost/signals/connection.hpp:108-113 | After assignment the target compares exactly like the source against every handle, and observes the same slot, whatever it held before |
| Connections.Swap | include/boost/signals/connection.hpp:115-119 | Swap exchanges both the slot references and the identities, so each handle takes over the other's equality and connectivity |
| Connections.SwapTwiceRestores | include/boost/signals/connection.hpp:115-119 | Swapping twice gives back both handles exactly |
| Connections.ComparisonIgnoresSlot | include/boost/signals/connection.hpp:100-106 | `==` and `<` are unchanged when either handle's slot reference is replaced or cleared |
| Connections.CopyEqualAfterDisconnect | include/boost/signals/connection.hpp:78-103 | A copy observes the source's connectivity in any store, and still equals the source once its slot reference is cleared |
| Connections.ConnectionOrderIsTotal | include/boost/signals/connection.hpp:68-106 | Exactly one of `<`, `==`, `>` holds between two handles. `<` is transitive, and the derived `!=`, `<=`, `>=` agree with `==` and `<` |
| Connections.DefaultScoped | include/boost/signals/connection.hpp:134-137 | A default scoped connection is not released, has no slot reference, and takes its fresh address as identity |
| Connections.DefaultScopedIsDefaultConnection | include/boost/signals/connection.hpp:134-137 | A default scoped connection is exactly a default `connection` base with `released_` false, and uses up the same identity |
| SlotPredicates.MakePair | include/boost/signals/connection.hpp:165-168 | The pair holds a handle equal to the given one, with the same connectivity and blocking in every store, and the given payload |
| SlotPredicates.IsDisconnected | include/boost/signals/connection.hpp:175-184 | Definition of `is_disconnected`: the pair's handle is not connected (no contract; the body is the definition) |
| SlotPredicates.IsCallable | include/boost/signals/connection.hpp:186-196 | Definition of `is_callable`: connected and not blocked (no contract; the body is the definition) |
| SlotPredicates.ActivityPartition | include/boost/signals/connection.hpp:175-196 | Callable means connected and not blocked. A callable pair is never disconnected and a disconnected pair is never callable |
| SlotPredicates.PredicatesReadOnlyHandleState | include/boost/signals/connection.hpp:175-196 | Both predicates depend only on `connected()` and `blocked()`, never on the payload. A pair with no live slot reference is disconnected |
| SlotPredicates.ConnectedOnly | include/boost/signals/connection.hpp:175-184 | (assumed consumer of `is_disconnected`) Reference filter: the pairs `is_disconnected` rejects, in input order (no contract; the body is the definition) |
| SlotPredicates.ConnectedOnlyKeepsExactlyConnected | include/boost/signals/connection.hpp:175-184 | (assumed consumer of `is_disconnected`) Filtering by `is_disconnected` keeps each connected pair exactly as often as the input holds it, and drops every disconnected one, so no callable pair is lost |
| SlotPredicates.RemoveDisconnected | include/boost/signals/connection.hpp:175-184 | (assumed consumer of `is_disconnected`) Removing disconnected pairs keeps the connected ones in order. Every survivor came from the input, and every callable input pair survives |
| AutoDisconnect.Make | include/boost/signals/connection.hpp:202-205 | A new guard holds its binding and starts armed |
| AutoDisconnect.Release | include/boost/signals/connection.hpp:213 | `release()` disarms the guard and keeps its binding |
| AutoDisconnect.ReleaseIdempotent | include/boost/signals/connection.hpp:213 | Releasing twice is the same as releasing once |
| AutoDisconnect.Teardown | include/boost/signals/connection.hpp:207-211 | Destroying an armed guard appends one call of its callback with its object and context. A released guard appends nothing, and the earlier trace is kept |
| AutoDisconnect.ReleaseTimesDisarms | include/boost/signals/connection.hpp:202-213 | After any number of releases the guard is armed only if it was before and no release happened. The binding never changes |
| AutoDisconnect.LifetimeCallsOnceUnlessReleased | include/boost/signals/connection.hpp:198-218 | Over a guard's life the callback runs exactly once if `release()` was never called, and zero times if it was |

## Findings

| source | as written | input that shows it | evidently intended | confidence | as-written member | corrected member |
|---|---|---|---|---|---|---|
| include/boost/signals/connection.hpp:47-48 | `a > b` is `!(a < b)`, which is `>=` on object addresses | any binding against itself, e.g. obj 1, data 0: `a > a` is true | strict greater-than, the converse of `<` (`b < a`) | medium, not executed | BoundObjects.GreaterAsWrittenIsReflexive | BoundObjects.GreaterIsConverseOfLess |

## Left out

- Connections.DefaultIsFresh: the issued set never shrinks, so the model never reuses an address. In the source a new default handle can be built at the address of a dead original and then compares equal to that original's surviving copies. "Unequal to every earlier handle" therefore holds only in the model.
- BoundObjects.LessIsStrictWeakOrder: the model assumes a flat, totally ordered address space. The header compares unrelated `void*` values with the built-in `<`, whose result the C++ standard leaves unspecified; only `std::less<void*>` guarantees a total order.
- Connections.ConnectionOrderIsTotal: the same assumption for `identity_ < other.identity_`. The trichotomy and transitivity proved here hold for the model's address order, not for every implementation of the built-in pointer comparison.
- The bodies of `block`, `unblock`, `blocked`, `disconnect` and `connected` are out of line and not part of this model. `connected`/`blocked` appear only as reads of the store, and no state change is modelled.
- `scoped_connection`'s converting and copy constructors, destructor, `release`, `swap` and assignments are declared but defined out of line. They are not modelled. Only the default constructor is.
- `weak_ptr`/`shared_ptr` lifetime mechanics and `slot_connection_interface` are replaced by an optional index into the store.
- `detail::basic_connection` is a plain record used by the out-of-line code. No operation of this header touches it.
- The default `connection_slot_pair()` constructor is not modelled. An empty `any` has no counterpart in an opaque payload type.
- The `connection_slot_pair` `==` and `<` always return false. They exist only so that explicit instantiation compiles, and carry no meaning.
- ABI prefix/suffix headers and the intel-compiler workaround comment are build plumbing.
