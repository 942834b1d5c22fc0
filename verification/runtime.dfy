/**
 * The runtime: the thread-local cells holding the next event id, the
 * started flag and the slot of the running app, and the way an event or a
 * state change reaches the app's product.
 */
module Runtime {
  import opened Wrappers
  import opened Host
  import opened Version

  /** Whether a component should be rendered after a state change. */
  datatype Then = Stop | Render

  /** `From<()> for Then`: a handler that returns nothing asks for a render. */
  function FromUnit(u: ()): (t: Then)
    ensures t != Stop
  {
    Render
  }

  /** The event being dispatched, and the id of the listener it was fired for. */
  datatype EventContext<E> = EventContext(eid: nat, event: E)
  {
    /** `get`: the event, only for the listener whose id it was fired for. */
    function Get(id: nat): (r: Option<E>)
      ensures r.Some? <==> id == eid
      ensures r.Some? ==> r.value == event
    {
      if eid == id then Some(event) else None
    }
  }

  /**
   * `RuntimeData`: the app's product, and the closures that hand an event to
   * the product's listeners and render the app again.  `renders` counts the
   * calls of `update`.
   */
  class RuntimeData<P, E> {
    var product: P
    const trigger: (EventContext<E>, P) -> Option<Then>
    const update: P -> P
    var renders: nat

    constructor (product: P, trigger: (EventContext<E>, P) -> Option<Then>, update: P -> P)
      ensures this.product == product && this.trigger == trigger && this.update == update
      ensures renders == 0
    {
      this.product := product;
      this.trigger := trigger;
      this.update := update;
      renders := 0;
    }

    /** Whether the product is left alone: a listener took the event and answered `Stop`. */
    predicate Silenced(ctx: Option<EventContext<E>>, p: P)
    {
      ctx.Some? && trigger(ctx.value, p) == Some(Stop)
    }

    /**
     * `Runtime::update`: the event, if any, is offered to the listeners
     * first; the app is rendered again exactly once unless a listener took it
     * and answered `Stop`.
     */
    method Update(ctx: Option<EventContext<E>>)
      modifies this
      ensures Silenced(ctx, old(product)) ==> product == old(product) && renders == old(renders)
      ensures !Silenced(ctx, old(product)) ==> product == update(old(product)) && renders == old(renders) + 1
    {
      if ctx.Some? {
        var answer := trigger(ctx.value, product);
        if answer == Some(Stop) {
          return;
        }
      }
      product := update(product);
      renders := renders + 1;
    }
  }

  /**
   * `EventId::next`: the `EVENT_ID` counter's current value; the counter
   * moves on by one, so ids drawn fewer than 2^32 apart differ.
   */
  method NextEventId(ids: Clock) returns (eid: nat)
    requires ids.Valid()
    modifies ids
    ensures eid == old(ids.ver) && ids.Valid() && ids.ver == Drawn(old(ids.ver), 1)
  {
    eid := ids.Next();
  }

  /**
   * The thread-local cells: `EVENT_ID` (a 32-bit counter handed out like the
   * version counter), `INIT`, and the `RUNTIME` slot; `body` holds the nodes
   * appended to the document body, and `locked` counts the closures run
   * under `lock_update`.
   */
  class Thread<P, E> {
    const eventIds: Clock
    var init: bool
    var slot: Option<RuntimeData<P, E>>
    var body: seq<Id>
    var locked: nat
    /** How many times an app's view has been built into a product. */
    var builds: nat

    constructor ()
      ensures fresh(eventIds) && eventIds.Valid() && eventIds.ver == 0
      ensures !init && slot.None? && body == [] && locked == 0 && builds == 0
    {
      eventIds := new Clock();
      init := false;
      slot := None;
      body := [];
      locked := 0;
      builds := 0;
    }

    /**
     * `start`: the first call builds the app's product, appends its node to
     * the body and fills the slot; every later call returns at once.
     */
    method Start<V>(render: () -> V, build: V -> P, js: P -> Id,
                    trigger: (EventContext<E>, P) -> Option<Then>, update: P -> P)
      modifies this
      ensures old(init) ==> unchanged(this)
      ensures !old(init) ==> init && builds == old(builds) + 1 && locked == old(locked)
      ensures !old(init) ==> body == old(body) + [js(build(render()))]
      ensures !old(init) ==> slot.Some? && fresh(slot.value)
      ensures !old(init) ==> slot.Some? && slot.value.product == build(render()) && slot.value.renders == 0
      ensures !old(init) ==> slot.Some? && slot.value.trigger == trigger && slot.value.update == update
    {
      if init {
        return;
      }
      init := true;
      builds := builds + 1;
      var runtime := new RuntimeData(build(render()), trigger, update);
      body := body + [js(runtime.product)];
      slot := Some(runtime);
    }

    /** The runtime in the slot, if any: what `trigger` and `lock_update` may change. */
    function Running(): set<object>
      reads this
    {
      if slot.Some? then {slot.value} else {}
    }

    /**
     * `trigger`: the runtime is taken out of the slot (so a call made while it
     * is out finds the slot empty and does nothing), updated with the event,
     * and the same runtime is put back.
     */
    method Trigger(eid: nat, event: E)
      modifies this, Running()
      ensures slot == old(slot) && init == old(init) && body == old(body) && locked == old(locked)
      ensures slot.Some? ==> var rt := slot.value;
        (rt.Silenced(Some(EventContext(eid, event)), old(rt.product)) ==>
          rt.product == old(rt.product) && rt.renders == old(rt.renders))
        && (!rt.Silenced(Some(EventContext(eid, event)), old(rt.product)) ==>
          rt.product == rt.update(old(rt.product)) && rt.renders == old(rt.renders) + 1)
    {
      var taken := slot;
      slot := None;
      if taken.Some? {
        var runtime := taken.value;
        runtime.Update(Some(EventContext(eid, event)));
        slot := Some(runtime);
      }
    }

    /**
     * `lock_update`: only with a runtime in the slot is the closure run; the
     * app is rendered again exactly when the closure answers `Render`, and the
     * runtime is put back either way.
     */
    method LockUpdate(f: () -> Then)
      modifies this, Running()
      ensures slot == old(slot) && init == old(init) && body == old(body)
      ensures slot.None? ==> locked == old(locked)
      ensures slot.Some? ==> locked == old(locked) + 1
      ensures slot.Some? ==> var rt := slot.value;
        (f() == Render ==> rt.product == rt.update(old(rt.product)) && rt.renders == old(rt.renders) + 1)
        && (f() == Stop ==> rt.product == old(rt.product) && rt.renders == old(rt.renders))
    {
      var taken := slot;
      slot := None;
      if taken.Some? {
        var runtime := taken.value;
        locked := locked + 1;
        if f() == Render {
          runtime.Update(None);
        }
        slot := Some(runtime);
      }
    }
  }

  /** Starting twice builds once: the second call finds `INIT` set and leaves everything as it was. */
  method StartTwice<P, E, V>(t: Thread<P, E>, first: () -> V, second: () -> V, build: V -> P, js: P -> Id,
                             trigger: (EventContext<E>, P) -> Option<Then>, update: P -> P)
    requires !t.init
    modifies t
    ensures t.builds == old(t.builds) + 1
    ensures t.slot.Some? && t.slot.value.product == build(first()) && t.body == old(t.body) + [js(build(first()))]
  {
    t.Start(first, build, js, trigger, update);
    t.Start(second, build, js, trigger, update);
  }
}
