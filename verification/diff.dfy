/**
 * Diffing values in render functions: a value is compared against a memo
 * kept from the previous render, the memo is brought up to date, and the
 * answer says whether anything that depends on the value has to be touched.
 */
module Diff {

  /** The memo a `Diff` value is checked against and written back to. */
  class Memo<M> {
    var value: M

    /** `into_memo`: the memo starts out holding what the value gives. */
    constructor (value: M)
      ensures this.value == value
    {
      this.value := value;
    }
  }

  /**
   * `diff` for the primitives, for `Option<T>` and for strings (whose memo is
   * an owned copy, so equality is equality of contents): a change is reported
   * exactly when the value differs from the memo, and the memo is written
   * only then, so afterwards it always holds the value.
   */
  method DiffValue<T(==)>(value: T, memo: Memo<T>) returns (changed: bool)
    modifies memo
    ensures changed <==> value != old(memo.value)
    ensures memo.value == value
    ensures !changed ==> unchanged(memo)
  {
    if value != memo.value {
      memo.value := value;
      changed := true;
    } else {
      changed := false;
    }
  }

  /** Diffing the same value twice in a row reports no change the second time. */
  method DiffTwice<T(==)>(value: T, memo: Memo<T>) returns (first: bool, second: bool)
    modifies memo
    ensures first <==> value != old(memo.value)
    ensures !second && memo.value == value
  {
    first := DiffValue(value, memo);
    second := DiffValue(value, memo);
  }

  /** `Ref<T>`: a value behind a reference; only its address takes part in diffing. */
  class Ref<T> {
    const inner: T

    constructor (inner: T)
      ensures this.inner == inner
    {
      this.inner := inner;
    }

    /** `Deref` and `AsRef`: the value behind the reference. */
    function Get(): (v: T)
      ensures v == inner
    {
      inner
    }
  }

  /**
   * `diff` for `&Ref<T>`: the memo is the address; a change is reported
   * exactly when the address differs, whatever the contents, and the memo
   * then takes the new address.
   */
  method DiffRef<T>(r: Ref<T>, memo: Memo<object>) returns (changed: bool)
    modifies memo
    ensures changed <==> old(memo.value) != r
    ensures memo.value == r
  {
    var address: object := r;
    if address != memo.value {
      memo.value := address;
      changed := true;
    } else {
      changed := false;
    }
  }

  /**
   * Two references to equal contents are still two addresses: the one the
   * memo was taken from is no change, the other one is.
   */
  method AddressOnly<T>(x: T) returns (same: bool, other: bool)
    ensures !same && other
  {
    var a := new Ref(x);
    var b := new Ref(x);
    var memo := new Memo<object>(a);
    same := DiffRef(a, memo);
    other := DiffRef(b, memo);
  }

  /**
   * `Eager<T>` (made by `use`) and `Static<T>` (made by `static`): values
   * that are never compared; `Eager` is applied on every render, `Static`
   * only when built.
   */
  datatype NoDiff<T> = Eager(value: T) | Static(value: T)

  /** `diff` for `Eager` and `Static`, with a unit memo: always a change, and never one. */
  function DiffNoDiff<T>(w: NoDiff<T>): (changed: bool)
    ensures changed <==> w.Eager?
  {
    match w
    case Eager(_) => true
    case Static(_) => false
  }

  /**
   * A property of a host node that a `NoDiff` view or attribute writes: the
   * text content of the node it builds, or the attribute it is bound to.
   * `writes` counts the calls into the host.
   */
  class Prop<T> {
    var current: T
    var writes: nat

    /** `build` / `build_in`: the value is written once, whichever the wrapper. */
    constructor (w: NoDiff<T>)
      ensures current == w.value && writes == 1
    {
      current := w.value;
      writes := 1;
    }

    /**
     * `update` / `update_in`: an `Eager` value is written every time, even
     * when it equals what is there; a `Static` one never is.
     */
    method Update(w: NoDiff<T>)
      modifies this
      ensures DiffNoDiff(w) ==> current == w.value && writes == old(writes) + 1
      ensures !DiffNoDiff(w) ==> unchanged(this)
    {
      if DiffNoDiff(w) {
        current := w.value;
        writes := writes + 1;
      }
    }
  }

  /**
   * The `Fence` product: the guard's memo and the inner view's product;
   * `renders` counts the updates let through to the inner product.
   */
  class FenceProduct<G(==), P> {
    const guard: Memo<G>
    var inner: P
    var renders: nat

    /** `build`: the memo is taken from the guard and the inner view is always built. */
    constructor (guard: G, built: P)
      ensures this.guard.value == guard && fresh(this.guard)
      ensures inner == built && renders == 0
    {
      this.guard := new Memo(guard);
      inner := built;
      renders := 0;
    }

    /**
     * `update`: the inner view is rendered and updates the inner product
     * exactly when the guard's `diff` reports a change.
     */
    method Update(guard: G, update: P -> P) returns (changed: bool)
      modifies this, this.guard
      ensures changed <==> guard != old(this.guard.value)
      ensures this.guard.value == guard
      ensures inner == (if changed then update(old(inner)) else old(inner))
      ensures renders == old(renders) + (if changed then 1 else 0)
    {
      changed := DiffValue(guard, this.guard);
      if changed {
        inner := update(inner);
        renders := renders + 1;
      }
    }
  }

  /** `Invar`: the product of the inner view, built once; `update` leaves it as it is. */
  function InvarUpdate<V, P>(view: V, p: P): (q: P)
    ensures q == p
  {
    p
  }
}
