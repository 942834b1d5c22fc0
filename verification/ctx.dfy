/**
 * Event contexts with a chain of state hooks.  As an event travels down to
 * the listeners, every stateful product on the way attaches its hook to the
 * context; a listener names the state it wants by its state id, which is the
 * number of hooks attached below it, i.e. before it.
 */
module RuntimeCtx {
  import opened Wrappers
  import opened Runtime

  /** The type-level counter `Context`: `BaseCtx`, and `Ctx<D>` one above `D`. */
  datatype Context = BaseCtx | Ctx(inner: Context)

  /** `Context::sid`: 0 for `BaseCtx`, one more than `D` for `Ctx<D>`. */
  function Sid(c: Context): nat
  {
    match c
    case BaseCtx => 0
    case Ctx(d) => Sid(d) + 1
  }

  /** `Context::inc`: the next context up, whose sid is one more. */
  function Inc(c: Context): (n: Context)
    ensures Sid(n) == Sid(c) + 1
  {
    Ctx(c)
  }

  /** Different contexts have different sids: the sid identifies the context. */
  lemma {:induction false} SidInjective(a: Context, b: Context)
    requires Sid(a) == Sid(b)
    ensures a == b
  {
    match a
    case BaseCtx =>
    case Ctx(d) => SidInjective(d, b.inner);
  }

  /** `&mut Hook<T>` in the chain: the `TypeId` of `T`, and the state it holds. */
  datatype StateHook<A> = StateHook(ty: nat, value: A)

  /** `ContextState`: `()` or a pair of a hook and the chain attached before it. */
  datatype States<A> = Empty | Attached(hook: StateHook<A>, rest: States<A>)

  /** `ContextState::sid`: 0 for `()`, one more than the rest for `(hook, U)`. */
  function Depth<A>(s: States<A>): nat
  {
    match s
    case Empty => 0
    case Attached(_, rest) => Depth(rest) + 1
  }

  /** The hooks in the order they were attached, so the hook with sid `k` is at index `k`. */
  function Stack<A>(s: States<A>): (hooks: seq<StateHook<A>>)
    ensures |hooks| == Depth(s)
  {
    match s
    case Empty => []
    case Attached(h, rest) => Stack(rest) + [h]
  }

  /**
   * `with_state`: the callback is applied to the first hook, from the most
   * recently attached one, whose type matches and whose sid is `sid`;
   * without one the answer is `None` and no callback runs.  Returns the
   * answer and the chain with that hook's state replaced.
   */
  function WithState<A>(s: States<A>, sid: nat, ty: nat, callback: A -> (A, Then)): (r: (Option<Then>, States<A>))
    ensures Depth(r.1) == Depth(s)
  {
    match s
    case Empty => (None, Empty)
    case Attached(h, rest) =>
      if h.ty == ty && Depth(rest) == sid then
        (Some(callback(h.value).1), Attached(StateHook(h.ty, callback(h.value).0), rest))
      else
        var (answer, after) := WithState(rest, sid, ty, callback);
        (answer, Attached(h, after))
  }

  /**
   * `with_state` finds exactly the hook with sid `sid`, when its type
   * matches: the callback answers for it and only its state changes;
   * otherwise the chain is left as it was.
   */
  lemma {:induction false} WithStateAt<A>(s: States<A>, sid: nat, ty: nat, callback: A -> (A, Then))
    ensures WithState(s, sid, ty, callback).0.Some? <==> sid < Depth(s) && Stack(s)[sid].ty == ty
    ensures WithState(s, sid, ty, callback).0.Some? ==>
      WithState(s, sid, ty, callback).0.value == callback(Stack(s)[sid].value).1
      && Stack(WithState(s, sid, ty, callback).1) == Stack(s)[sid := StateHook(ty, callback(Stack(s)[sid].value).0)]
    ensures WithState(s, sid, ty, callback).0.None? ==> WithState(s, sid, ty, callback).1 == s
  {
    match s
    case Empty =>
    case Attached(h, rest) =>
      if h.ty == ty && Depth(rest) == sid {
        assert Stack(s)[sid] == h;
      } else {
        WithStateAt(rest, sid, ty, callback);
        var after := WithState(rest, sid, ty, callback).1;
        if WithState(rest, sid, ty, callback).0.Some? {
          assert Stack(Attached(h, after)) == Stack(after) + [h];
        }
      }
  }

  /** `EventCtx`: the id the event was fired for, the event, and the attached hooks. */
  datatype EventCtx<E, A> = EventCtx(eid: nat, event: E, states: States<A>)

  /** `EventCtx::new`: no hook attached yet. */
  function New<E, A>(eid: nat, event: E): (c: EventCtx<E, A>)
    ensures c.eid == eid && c.event == event && Stack(c.states) == []
  {
    EventCtx(eid, event, Empty)
  }

  /** `attach`: the hook goes on top of the chain, with the next sid; id and event are kept. */
  function Attach<E, A>(c: EventCtx<E, A>, hook: StateHook<A>): (d: EventCtx<E, A>)
    ensures d.eid == c.eid && d.event == c.event
    ensures Stack(d.states) == Stack(c.states) + [hook]
  {
    EventCtx(c.eid, c.event, Attached(hook, c.states))
  }

  /** `eid`: the id the event was fired for. */
  function Eid<E, A>(c: EventCtx<E, A>): (id: nat)
    ensures id == c.eid
  {
    c.eid
  }

  /**
   * `with`: `with_state` on the chain, the callback receiving the state and
   * the event and its result turned into a `Then`.
   */
  function With<E, A>(c: EventCtx<E, A>, sid: nat, ty: nat, callback: (A, E) -> (A, Then)): (r: (Option<Then>, EventCtx<E, A>))
    ensures r.1.eid == c.eid && r.1.event == c.event
    ensures r.0.Some? <==> sid < Depth(c.states) && Stack(c.states)[sid].ty == ty
    ensures r.0.Some? ==> r.0.value == callback(Stack(c.states)[sid].value, c.event).1
    ensures r.0.Some? ==> var v := callback(Stack(c.states)[sid].value, c.event).0;
      Stack(r.1.states) == Stack(c.states)[sid := StateHook(ty, v)]
    ensures r.0.None? ==> r.1 == c
  {
    var (answer, states) := WithState(c.states, sid, ty, v => callback(v, c.event));
    WithStateAt(c.states, sid, ty, v => callback(v, c.event));
    (answer, EventCtx(c.eid, c.event, states))
  }

  /**
   * A state is found by the sid it had when it was attached: after `attach`
   * on a chain of depth `k`, `with` for sid `k` and the hook's type reaches
   * that hook.
   */
  lemma AttachedFound<E, A>(c: EventCtx<E, A>, hook: StateHook<A>, callback: (A, E) -> (A, Then))
    ensures With(Attach(c, hook), Depth(c.states), hook.ty, callback).0 == Some(callback(hook.value, c.event).1)
  {
    var d := Attach(c, hook);
    assert Stack(d.states)[Depth(c.states)] == hook;
  }
}
