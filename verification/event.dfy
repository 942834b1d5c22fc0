/**
 * Event listeners: a closure becomes a listener product holding the closure
 * and the event id it was registered under, and an event reaches the
 * closure only when it was fired for that id.
 */
module Event {
  import opened Wrappers
  import opened Version
  import opened Runtime
  import opened RuntimeCtx

  /**
   * `ListenerProduct`: the closure and its event id; `heard` records every
   * call of a closure, with the event it was given.
   */
  class ListenerProduct<F, E> {
    var closure: F
    const eid: nat
    var heard: seq<(F, E)>

    /** `Listener::build`: the closure, with a fresh id drawn from `EventId::next`. */
    constructor (closure: F, ids: Clock)
      requires ids.Valid()
      modifies ids
      ensures this.closure == closure && eid == old(ids.ver) && heard == []
      ensures ids.Valid() && ids.ver == Drawn(old(ids.ver), 1)
    {
      this.closure := closure;
      var id := NextEventId(ids);
      eid := id;
      heard := [];
    }

    /** `Listener::update`: the new closure takes the old one's place; the id is a constant, so it stays. */
    method Update(closure: F)
      modifies this`closure
      ensures this.closure == closure
    {
      this.closure := closure;
    }

    /**
     * `trigger`: an event fired for this listener's id is handed to the
     * closure, once, and stops there; any other event passes by untouched.
     */
    method Trigger<A>(ctx: EventCtx<E, A>) returns (r: Option<Then>)
      modifies this`heard
      ensures Eid(ctx) == eid ==> r == Some(Stop) && heard == old(heard) + [(closure, ctx.event)]
      ensures Eid(ctx) != eid ==> r.None? && heard == old(heard)
    {
      if Eid(ctx) == eid {
        heard := heard + [(closure, ctx.event)];
        r := Some(Stop);
      } else {
        r := None;
      }
    }
  }

  /**
   * Two listeners built one after the other get different ids, so an event
   * fired for the first reaches the first and passes the second by.
   */
  method TwoListeners<F, E, A>(ids: Clock, f: F, g: F, event: E, states: States<A>)
    returns (first: Option<Then>, second: Option<Then>)
    requires ids.Valid()
    modifies ids
    ensures first == Some(Stop) && second.None?
  {
    var a := new ListenerProduct(f, ids);
    var b := new ListenerProduct(g, ids);
    DrawnDistinct(a.eid, 0, 1);
    assert a.eid == Drawn(a.eid, 0);
    var ctx := EventCtx(a.eid, event, states);
    first := a.Trigger(ctx);
    second := b.Trigger(ctx);
  }
}
