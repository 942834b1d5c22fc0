/**
 * Branch unions (`Branch2` to `Branch9`, and `Option<T>`): a view is one arm
 * of a union and its product is the product of the same arm.  An update on
 * the same arm is handed to that arm; on another arm the new view is built
 * and its node takes the old node's place in the document.
 */
module Branching {
  import opened Wrappers
  import opened Host

  /** A view of a `BranchN` union: the arm (`A` is 0, `B` is 1, ...) and its inner view. */
  datatype Branch<V> = Branch(arm: nat, view: V)

  /**
   * Replacing a node that is a child exactly once with a node that is not a
   * child puts the new node in its place, every other child staying put.
   */
  lemma ReplaceInPlace(c: seq<Id>, pos: nat, from: Id, to: Id)
    requires pos < |c| && c[pos] == from && to !in c
    requires forall i :: 0 <= i < |c| && i != pos ==> c[i] != from
    ensures Step(c, Replaced(from, to)) == c[pos := to]
  {
    RemoveAbsent(c, to);
  }

  /**
   * The effects of switching arms, seen from the parent: building the new
   * product changes nothing there, and `replace_with` puts its node where
   * the old one was.
   */
  lemma SwitchInPlace(t: seq<Effect>, pos: nat, from: Id, to: Id)
    requires pos < |Children(t)| && Children(t)[pos] == from && to !in Children(t)
    requires forall i :: 0 <= i < |Children(t)| && i != pos ==> Children(t)[i] != from
    ensures Children(t + [Built(to), Replaced(from, to)]) == Children(t)[pos := to]
  {
    ChildrenSnoc(t, Built(to));
    ChildrenSnoc(t + [Built(to)], Replaced(from, to));
    assert t + [Built(to)] + [Replaced(from, to)] == t + [Built(to), Replaced(from, to)];
    ReplaceInPlace(Children(t), pos, from, to);
  }

  /**
   * The product of a branch union: the active arm and that arm's product.
   * `next` is the next host node to be created, `effects` what the union
   * asked of the host.
   */
  class BranchProduct<V> {
    var arm: nat
    var inner: Product<V>
    var next: Id
    var effects: seq<Effect>

    ghost predicate Valid()
      reads this
    {
      inner.id < next
    }

    /** `build`: the product is in the arm of the view, built from its inner view. */
    constructor (view: Branch<V>, next: Id)
      ensures Valid() && arm == view.arm && inner == Product(next, view.view)
      ensures this.next == next + 1 && effects == [Built(next)]
    {
      arm := view.arm;
      inner := Product(next, view.view);
      this.next := next + 1;
      effects := [Built(next)];
    }

    /**
     * `update`: on the product's own arm the inner view updates the inner
     * product in place; on another arm the new view is built, takes the
     * product's place, and the old product's node is replaced by the new one.
     */
    method Update(view: Branch<V>)
      requires Valid()
      modifies this
      ensures Valid() && arm == view.arm && inner.view == view.view
      ensures old(arm) == view.arm ==>
        inner.id == old(inner.id) && next == old(next) && effects == old(effects) + [Updated(inner.id)]
      ensures old(arm) != view.arm ==>
        inner.id == old(next) && next == old(next) + 1
        && effects == old(effects) + [Built(inner.id), Replaced(old(inner.id), inner.id)]
    {
      if arm == view.arm {
        inner := inner.(view := view.view);
        effects := effects + [Updated(inner.id)];
      } else {
        Switch(view);
      }
    }

    /** The `(view, p)` arm of `update`: `replace(p, view.build())`, then `old.replace_with(p.js())`. */
    method Switch(view: Branch<V>)
      requires Valid()
      modifies this
      ensures Valid() && arm == view.arm && inner == Product(old(next), view.view)
      ensures next == old(next) + 1
      ensures effects == old(effects) + [Built(old(next)), Replaced(old(inner.id), old(next))]
    {
      var previous := inner;
      arm := view.arm;
      inner := Product(next, view.view);
      next := next + 1;
      effects := effects + [Built(inner.id), Replaced(previous.id, inner.id)];
    }

    /** `trigger`: the event reaches the inner product only when the view is on the product's arm. */
    function Trigger<R>(view: Branch<V>, trigger: (V, Product<V>) -> Option<R>): (r: Option<R>)
      reads this
      ensures view.arm != arm ==> r.None?
      ensures view.arm == arm ==> r == trigger(view.view, inner)
    {
      if view.arm == arm then trigger(view.view, inner) else None
    }

    /** `Mountable::js`: the node of the active arm's product. */
    function Js(): (id: Id)
      reads this
      requires Valid()
      ensures id == inner.id < next
    {
      inner.id
    }

    /** `unmount`: forwarded to the active arm's product. */
    method Unmount()
      modifies this`effects
      ensures effects == old(effects) + [Unmounted(inner.id)]
    {
      effects := effects + [Unmounted(inner.id)];
    }

    /** `replace_with`: forwarded to the active arm's product. */
    method ReplaceWith(to: Id)
      modifies this`effects
      ensures effects == old(effects) + [Replaced(inner.id, to)]
    {
      effects := effects + [Replaced(inner.id, to)];
    }
  }

  /** The arm an `Option` view renders in: `Some` in `A`, `None` (an empty node) in `B`. */
  function OptionArm<V>(o: Option<V>): (b: Branch<Option<V>>)
    ensures b.arm == (if o.Some? then 0 else 1) && b.view == o
  {
    Branch(if o.Some? then 0 else 1, o)
  }

  /** `build` for `Option<T>`: `Some` builds its view in `A`, `None` an empty node in `B`. */
  method BuildOption<V>(o: Option<V>, next: Id) returns (p: BranchProduct<Option<V>>)
    ensures p.Valid() && p.arm == (if o.Some? then 0 else 1) && p.inner == Product(next, o)
    ensures p.next == next + 1 && p.effects == [Built(next)]
  {
    p := new BranchProduct(OptionArm(o), next);
  }

  /**
   * `update` for `Option<T>`: `Some` over `A` updates in place, `None` over
   * `B` does nothing at all, and any other pair switches arms.
   */
  method UpdateOption<V>(o: Option<V>, p: BranchProduct<Option<V>>)
    requires p.Valid()
    modifies p
    ensures p.Valid() && p.arm == (if o.Some? then 0 else 1)
    ensures o.None? && old(p.arm) == 1 ==> unchanged(p)
    ensures o.Some? && old(p.arm) == 0 ==>
      p.inner == old(p.inner).(view := o) && p.next == old(p.next)
      && p.effects == old(p.effects) + [Updated(p.inner.id)]
    ensures old(p.arm) != (if o.Some? then 0 else 1) ==>
      p.inner == Product(old(p.next), o) && p.next == old(p.next) + 1
      && p.effects == old(p.effects) + [Built(old(p.next)), Replaced(old(p.inner.id), old(p.next))]
  {
    if o.Some? && p.arm == 0 {
      p.Update(OptionArm(o));
    } else if o.None? && p.arm == 1 {
    } else {
      p.Switch(OptionArm(o));
    }
  }

  /** `trigger` for `Option<T>`: only `Some` over `A` reaches the inner product. */
  function TriggerOption<V, R>(o: Option<V>, arm: nat, inner: Product<Option<V>>, trigger: (V, Product<Option<V>>) -> Option<R>)
    : (r: Option<R>)
    ensures !(o.Some? && arm == 0) ==> r.None?
    ensures o.Some? && arm == 0 ==> r == trigger(o.value, inner)
  {
    if o.Some? && arm == 0 then trigger(o.value, inner) else None
  }
}
