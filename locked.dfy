/// Model of src/util/locked.hpp: a value reachable only through a locked
/// callback, and a pair of containers of which one ("inner") belongs to a
/// single consumer and the other ("outer") to producers, exchanged by swap().
/// Mutexes are not modelled: each operation runs as one critical section.
module Locking {

  /// `locked<T>`: the contents are reached through Apply or UnsafeAccess only.
  class Locked<T> {
    var contents: T

    constructor (init: T)
      ensures contents == init
    {
      contents := init;
    }

    /// `apply(f)`: `f` receives the contents by reference, so it may replace
    /// them; its result is returned.
    method Apply<R>(f: T -> (T, R)) returns (r: R)
      modifies this
      ensures contents == f(old(contents)).0
      ensures r == f(old(contents)).1
    {
      var out := f(contents);
      contents := out.0;
      r := out.1;
    }

    /// `apply(f) const`: `f` only reads the contents.
    method ApplyConst<R>(f: T -> R) returns (r: R)
      ensures r == f(contents)
    {
      r := f(contents);
    }

    /// `unsafe_access()`: the same contents, without the lock.
    method UnsafeAccess() returns (c: T)
      ensures c == contents
    {
      c := contents;
    }
  }

  /// The clearing policy run after every swap: `clear_inner` or `clear_outer`.
  datatype AfterSwap = ClearInner | ClearOuter

  /// What a double buffer looks like from outside: which physical slot is
  /// inner, and what the inner and outer slots hold.
  datatype View<E> = View(innerIdx: nat, inner: seq<E>, outer: seq<E>)

  /// The physical slot that is outer when `i` is inner.
  function Other(i: nat): (j: nat)
    requires i < 2
    ensures j < 2 && j != i && j == 1 - i
  {
    (i + 1) % 2
  }

  /// The roles after swap(): the old outer becomes inner and the old inner
  /// becomes outer; then the policy empties one of them.
  function SwapView<E>(v: View<E>, policy: AfterSwap): View<E>
    requires v.innerIdx < 2
  {
    match policy
    case ClearOuter => View(Other(v.innerIdx), v.outer, [])
    case ClearInner => View(Other(v.innerIdx), [], v.inner)
  }

  /// A producer appending `m` to the outer slot.
  function AppendOuter<E>(v: View<E>, m: seq<E>): View<E> {
    v.(outer := v.outer + m)
  }

  /// Producers appending `ms[0]`, `ms[1]`, ... in turn.
  function AppendAll<E>(v: View<E>, ms: seq<seq<E>>): (w: View<E>)
    ensures w.innerIdx == v.innerIdx && w.inner == v.inner
    ensures |w.outer| >= |v.outer| && w.outer[..|v.outer|] == v.outer
    decreases |ms|
  {
    if ms == [] then v else AppendAll(AppendOuter(v, ms[0]), ms[1..])
  }

  function Flatten<E>(ms: seq<seq<E>>): seq<E>
    decreases |ms|
  {
    if ms == [] then [] else ms[0] + Flatten(ms[1..])
  }

  function TotalLength<E>(ms: seq<seq<E>>): nat
    decreases |ms|
  {
    if ms == [] then 0 else |ms[0]| + TotalLength(ms[1..])
  }

  /// Appends only touch the outer slot, and they keep every byte in order.
  lemma {:induction false} AppendAllOuter<E>(v: View<E>, ms: seq<seq<E>>)
    ensures AppendAll(v, ms) == v.(outer := v.outer + Flatten(ms))
    decreases |ms|
  {
    if ms != [] {
      AppendAllOuter(AppendOuter(v, ms[0]), ms[1..]);
      assert v.outer + ms[0] + Flatten(ms[1..]) == v.outer + (ms[0] + Flatten(ms[1..]));
    }
  }

  lemma {:induction false} FlattenLength<E>(ms: seq<seq<E>>)
    ensures |Flatten(ms)| == TotalLength(ms)
    decreases |ms|
  {
    if ms != [] {
      FlattenLength(ms[1..]);
    }
  }

  /// With `clear_outer`: whatever the producers appended before a swap is,
  /// after it, exactly the consumer's inner slot (following what was already
  /// outer), and the producers start again from an empty outer slot.
  lemma QueuedThenSwapped<E>(v: View<E>, ms: seq<seq<E>>)
    requires v.innerIdx < 2
    ensures SwapView(AppendAll(v, ms), ClearOuter)
         == View(Other(v.innerIdx), v.outer + Flatten(ms), [])
    ensures |SwapView(AppendAll(v, ms), ClearOuter).inner| == |v.outer| + TotalLength(ms)
  {
    AppendAllOuter(v, ms);
    FlattenLength(ms);
  }

  /// With `clear_inner`: a swap empties the slot that becomes inner, so what
  /// producers appended is dropped and the old inner contents become outer.
  lemma QueuedThenSwappedClearInner<E>(v: View<E>, ms: seq<seq<E>>)
    requires v.innerIdx < 2
    ensures SwapView(AppendAll(v, ms), ClearInner) == View(Other(v.innerIdx), [], v.inner)
  {
    AppendAllOuter(v, ms);
  }

  /// Two swaps give each physical slot its old role back.
  lemma SwapTwiceRestoresRoles<E>(v: View<E>, policy: AfterSwap)
    requires v.innerIdx < 2
    ensures SwapView(v, policy).innerIdx < 2
    ensures SwapView(SwapView(v, policy), policy).innerIdx == v.innerIdx
    ensures SwapView(v, policy).innerIdx != v.innerIdx
  {
  }

  /// `double_buffered<T, AfterSwap>`: a two-slot store and the index of the
  /// inner slot. The containers are sequences, so `.clear()` is `[]`.
  class DoubleBuffered<E> {
    const policy: AfterSwap
    const store: array<seq<E>>
    var innerIdx: nat

    ghost predicate Valid()
      reads this
    {
      store.Length == 2 && innerIdx < 2
    }

    /// `_store[_inner_idx]`.
    function InnerIndex(): (i: nat)
      requires Valid()
      reads this
      ensures i < 2
    {
      innerIdx
    }

    /// `_store[(_inner_idx + 1) % 2]`: never the inner slot.
    function OuterIndex(): (j: nat)
      requires Valid()
      reads this
      ensures j < 2 && j != InnerIndex()
    {
      (innerIdx + 1) % 2
    }

    /// `inner()`.
    function Inner(): seq<E>
      requires Valid()
      reads this, store
    {
      store[InnerIndex()]
    }

    /// `outer()`.
    function Outer(): seq<E>
      requires Valid()
      reads this, store
    {
      store[OuterIndex()]
    }

    function State(): View<E>
      requires Valid()
      reads this, store
    {
      View(innerIdx, Inner(), Outer())
    }

    /// `double_buffered(inner, outer)`.
    constructor (inner: seq<E>, outer: seq<E>, policy: AfterSwap)
      ensures Valid() && fresh(store) && this.policy == policy
      ensures State() == View(0, inner, outer)
    {
      this.policy := policy;
      store := new seq<E>[2] [inner, outer];
      innerIdx := 0;
    }

    /// `double_buffered(inner)`: the outer slot defaults to `T{}`.
    constructor WithInner(inner: seq<E>, policy: AfterSwap)
      ensures Valid() && fresh(store) && this.policy == policy
      ensures State() == View(0, inner, [])
    {
      this.policy := policy;
      store := new seq<E>[2] [inner, []];
      innerIdx := 0;
    }

    /// `double_buffered()`: both slots default to `T{}`.
    constructor Empty(policy: AfterSwap)
      ensures Valid() && fresh(store) && this.policy == policy
      ensures State() == View(0, [], [])
    {
      this.policy := policy;
      store := new seq<E>[2] [[], []];
      innerIdx := 0;
    }

    /// `outer_locked(f)`: `f` may rewrite the outer slot and its result is
    /// returned; the inner slot and the index stay as they were.
    method OuterLocked<R>(f: seq<E> -> (seq<E>, R)) returns (r: R)
      requires Valid()
      modifies store
      ensures Valid()
      ensures State() == old(State()).(outer := f(old(Outer())).0)
      ensures r == f(old(Outer())).1
    {
      var j := (innerIdx + 1) % 2;
      var out := f(store[j]);
      store[j] := out.0;
      r := out.1;
    }

    /// `swap()`: flip the index, then run the policy on (inner, outer).
    method Swap()
      requires Valid()
      modifies this, store
      ensures Valid()
      ensures State() == SwapView(old(State()), policy)
    {
      innerIdx := (innerIdx + 1) % 2;
      match policy
      case ClearInner =>
        store[innerIdx % 2] := [];
      case ClearOuter =>
        store[(innerIdx + 1) % 2] := [];
    }
  }
}
