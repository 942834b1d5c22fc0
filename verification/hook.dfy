/**
 * Hooks: the cell a stateful view keeps its state in, read by the render
 * function and written by the callbacks bound to it.
 */
module Hooks {
  import opened Wrappers
  import opened Runtime

  /** `Hook<S>`: the state, behind a cell that bound callbacks write through. */
  class Hook<S> {
    var inner: S

    /** `Hook::new`: the cell holding the given state. */
    constructor (inner: S)
      ensures this.inner == inner
    {
      this.inner := inner;
    }

    /** `Deref`: the state as it is now. */
    function Deref(): (s: S)
      reads this
      ensures s == inner
    {
      inner
    }

    /** `get`: a copy of the state, the same value `Deref` gives. */
    function Get(): (s: S)
      reads this
      ensures s == Deref()
    {
      inner
    }

    /** `bind`: the callback packaged with this hook; nothing is called and the state is not touched. */
    function Bind<E>(callback: (S, E) -> (S, Then)): (b: Bound<S, E>)
      ensures b.hook == this && b.callback == callback
    {
      Bound(callback, this)
    }

    /** `View for &Hook`: a hook is built as the view of the state it holds. */
    function Build<P>(build: S -> P): (p: P)
      reads this
      ensures p == build(Deref())
    {
      build(inner)
    }

    /** `View for &Hook`: a hook updates a product as the view of the state it holds does. */
    function Update<P>(update: (S, P) -> P, p: P): (q: P)
      reads this
      ensures q == update(Deref(), p)
    {
      update(inner, p)
    }
  }

  /**
   * `Bound`: a callback given mutable access to the hook's state and the
   * event; its answer, turned into a `Then`, says whether to render.
   */
  datatype Bound<!S, -E> = Bound(callback: (S, E) -> (S, Then), hook: Hook<S>)
  {
    /**
     * `Bound::trigger`: for the listener's own id, the callback runs once on
     * the state and the event, and its answer is returned; for any other id
     * the answer is `None` and the state is left alone.
     */
    method Trigger(ctx: EventContext<E>, eid: nat) returns (r: Option<Then>)
      modifies hook
      ensures ctx.Get(eid).None? ==> r.None? && unchanged(hook)
      ensures ctx.Get(eid).Some? ==> var (s, answer) := callback(old(hook.inner), ctx.event);
        r == Some(answer) && hook.inner == s
    {
      var e := ctx.Get(eid);
      if e.Some? {
        var (s, answer) := callback(hook.inner, e.value);
        hook.inner := s;
        r := Some(answer);
      } else {
        r := None;
      }
    }
  }

  /** Binding does not run the callback: a bound counter is still at its first value. */
  method BindRunsNothing(start: int) returns (before: int, after: int)
    ensures before == start && after == start + 1
  {
    var h := new Hook(start);
    var b := h.Bind((n: int, e: ()) => (n + 1, Render));
    before := h.Get();
    var r := b.Trigger(EventContext(7, ()), 7);
    after := h.Get();
  }
}
