/**
 * Stateful views: a view that owns some state, kept in a hook inside its
 * product and handed to the render function on every render.
 */
module State {
  import opened Wrappers
  import opened Host
  import opened Runtime
  import opened RuntimeCtx
  import opened Hooks

  /**
   * `Stateful<S, F>`: what the state is made from, `IntoState::init` turning
   * it into the state, and the render function from the state to a view.
   */
  datatype Stateful<!I, !S, V> = Stateful(state: I, init: I -> S, render: S -> V)

  /**
   * `StatefulProduct`: the hook with the state and the product of the view
   * rendered from it; `effects` records what the product asks of the host.
   */
  class StatefulProduct<S, V> {
    const state: Hook<S>
    var product: Product<V>
    var effects: seq<Effect>

    /** `build`: the state is made once, and the view rendered from it is built. */
    constructor <I>(view: Stateful<I, S, V>, next: Id)
      ensures fresh(state) && state.inner == view.init(view.state)
      ensures product == Product(next, view.render(state.inner)) && effects == [Built(next)]
    {
      state := new Hook(view.init(view.state));
      product := Product(next, view.render(view.init(view.state)));
      effects := [Built(next)];
    }

    /** `update`: the view is rendered from the state kept in the hook, which is never made again. */
    method Update<I>(view: Stateful<I, S, V>)
      modifies this`product, this`effects
      ensures unchanged(state)
      ensures product == old(product).(view := view.render(state.inner))
      ensures effects == old(effects) + [Updated(product.id)]
    {
      product := product.(view := view.render(state.inner));
      effects := effects + [Updated(product.id)];
    }

    /** `Mountable::js`: the inner product's node. */
    function Js(): (id: Id)
      reads this
      ensures id == product.id
    {
      product.id
    }

    /** `Mountable::unmount`: forwarded to the inner product. */
    method Unmount()
      modifies this`effects
      ensures effects == old(effects) + [Unmounted(product.id)]
    {
      effects := effects + [Unmounted(product.id)];
    }

    /** `Mountable::replace_with`: forwarded to the inner product. */
    method ReplaceWith(to: Id)
      modifies this`effects
      ensures effects == old(effects) + [Replaced(product.id, to)]
    {
      effects := effects + [Replaced(product.id, to)];
    }

    /**
     * `trigger`: the product's own hook (of type `ty`) is attached on top of
     * the context before the event goes down to the inner product.  The inner
     * trigger hands back the chain it was given, written to or not; the top of
     * it is this product's state, the rest goes back to the caller.
     */
    method Trigger<E>(ctx: EventCtx<E, S>, ty: nat,
                      trigger: (EventCtx<E, S>, Product<V>) -> (Option<Then>, States<S>))
      returns (r: Option<Then>, states: States<S>)
      requires forall c, p :: Depth(trigger(c, p).1) == Depth(c.states)
      modifies state
      ensures var (answer, after) := trigger(Attach(ctx, StateHook(ty, old(state.inner))), product);
        r == answer && after.Attached? && after.hook.value == state.inner && after.rest == states
    {
      var attached := Attach(ctx, StateHook(ty, state.inner));
      var (answer, after) := trigger(attached, product);
      assert Depth(after) == Depth(ctx.states) + 1;
      state.inner := after.hook.value;
      r := answer;
      states := after.rest;
    }
  }

  /** `Signal`: the handle `once` hands its handler. */
  datatype Signal = Signal

  /**
   * `OnceProduct`: the stateful product and what the handler returned;
   * `handled` counts the handler's calls.
   */
  class OnceProduct<S, V, D> {
    const inner: StatefulProduct<S, V>
    const kept: D
    var handled: nat

    /** `Once::build`: the stateful view is built, then the handler is called once and its result kept. */
    constructor <I>(view: Stateful<I, S, V>, handler: Signal -> D, next: Id)
      ensures fresh(inner) && fresh(inner.state) && inner.state.inner == view.init(view.state)
      ensures inner.product == Product(next, view.render(inner.state.inner)) && inner.effects == [Built(next)]
      ensures kept == handler(Signal) && handled == 1
    {
      inner := new StatefulProduct(view, next);
      kept := handler(Signal);
      handled := 1;
    }

    /** `Once::update`: only the stateful product is updated; the handler is not called again. */
    method Update<I>(view: Stateful<I, S, V>)
      modifies inner`product, inner`effects
      ensures handled == old(handled) && unchanged(inner.state)
      ensures inner.product == old(inner.product).(view := view.render(inner.state.inner))
      ensures inner.effects == old(inner.effects) + [Updated(inner.product.id)]
    {
      inner.Update(view);
    }

    /** `Mountable::js` of `OnceProduct`: the stateful product's node. */
    function Js(): (id: Id)
      reads this, inner
      ensures id == inner.product.id
    {
      inner.Js()
    }
  }
}
