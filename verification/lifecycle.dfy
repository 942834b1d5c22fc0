/**
 * `on_mount` and `on_render`: a view wrapped with a handler that is given
 * the node of the view's product.  The wrapper's product is the inner
 * view's product, unchanged; the handler is called after `build`, and for
 * `on_render` after every `update` too.
 */
module Lifecycle {
  import opened Host

  /** `OnMount<V, F>` and `OnRender<V, F>`: the view; the handler is known by its calls. */
  datatype Wrapped<V> = OnMount(view: V) | OnRender(view: V)

  /** The result of rendering a wrapped view: its product, and the nodes the handler was called with. */
  datatype Rendered<V> = Rendered(product: Product<V>, calls: seq<Id>)

  /** `build`: the inner view is built, then the handler is called once with its node. */
  function Build<V>(w: Wrapped<V>, next: Id): (r: Rendered<V>)
    ensures r.product == Product(next, w.view) && r.calls == [r.product.id]
  {
    Rendered(Product(next, w.view), [next])
  }

  /**
   * `update`: the inner view updates the product; `OnMount` calls nothing,
   * `OnRender` calls its handler once more with the product's node.
   */
  function Update<V>(w: Wrapped<V>, p: Product<V>): (r: Rendered<V>)
    ensures r.product == p.(view := w.view)
    ensures w.OnMount? ==> r.calls == []
    ensures w.OnRender? ==> r.calls == [p.id]
  {
    match w
    case OnMount(view) => Rendered(p.(view := view), [])
    case OnRender(view) => Rendered(p.(view := view), [p.id])
  }

  /** A build followed by a run of updates: the last product and every handler call, in order. */
  function Run<V>(first: Wrapped<V>, updates: seq<Wrapped<V>>, next: Id): Rendered<V>
    decreases |updates|
  {
    if |updates| == 0 then Build(first, next)
    else
      var before := Run(first, updates[..|updates| - 1], next);
      var after := Update(updates[|updates| - 1], before.product);
      Rendered(after.product, before.calls + after.calls)
  }

  /** `k` copies of a node id. */
  function Repeat(id: Id, k: nat): (s: seq<Id>)
    ensures |s| == k && forall i :: 0 <= i < k ==> s[i] == id
  {
    if k == 0 then [] else Repeat(id, k - 1) + [id]
  }

  /**
   * Over a build and any number of renders, the product keeps its node and
   * holds the last view; an `on_mount` handler is called once, an
   * `on_render` handler once per build and per update, always with that node.
   */
  lemma {:induction false} RunCalls<V>(first: Wrapped<V>, updates: seq<Wrapped<V>>, next: Id)
    ensures Run(first, updates, next).product.id == next
    ensures Run(first, updates, next).product.view == if |updates| == 0 then first.view else updates[|updates| - 1].view
    ensures (forall i :: 0 <= i < |updates| ==> updates[i].OnMount?) ==> Run(first, updates, next).calls == [next]
    ensures (forall i :: 0 <= i < |updates| ==> updates[i].OnRender?) ==>
      Run(first, updates, next).calls == Repeat(next, |updates| + 1)
    decreases |updates|
  {
    if |updates| > 0 {
      var prefix := updates[..|updates| - 1];
      RunCalls(first, prefix, next);
      assert forall i :: 0 <= i < |prefix| ==> prefix[i] == updates[i];
    }
  }
}
