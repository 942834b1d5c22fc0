/**
 * The earlier list engine: the rendered products live in a growable vector,
 * the first `visible` of them are mounted in the list's `div`, and an update
 * pairs the stored products with the new views by position.  Products past
 * `visible` stay stored (unmounted) for reuse, and every product the vector
 * holds was rendered by it, in order, so product `i` owns node `i`.
 */
module VecList {
  import opened Host

  /** `RenderedList<T>`: `effects` is everything asked of the host, the `div`'s children being its replay. */
  class RenderedList<V> {
    var list: seq<Product<V>>
    var visible: nat
    var effects: seq<Effect>

    /** The `div` holds exactly the first `visible` stored products, in order. */
    ghost predicate Valid()
      reads this
    {
      visible <= |list| && Numbered(list) && Children(effects) == Span(0, visible)
    }

    /** `IterWrapper::render`: every view rendered and mounted, in order, all of them visible. */
    constructor (views: seq<V>)
      ensures Valid() && visible == |views|
      ensures list == Fresh(0, views)
    {
      var ps := [];
      var t := [];
      var k := 0;
      while k < |views|
        invariant k <= |views| && ps == Fresh(0, views[..k])
        invariant Children(t) == Span(0, k)
      {
        BuildSpan(t, k);
        t := t + [Built(k), Appended(k)];
        FreshSnoc(0, views, k);
        ps := ps + [Product(k, views[k])];
        k := k + 1;
      }
      assert views[..k] == views;
      list := ps;
      visible := |ps|;
      effects := t;
    }

    /**
     * `update`: the visible products take the views by position; if the views
     * ran out first every stored product from there on is unmounted, otherwise
     * the hidden products take the next views and are mounted again, and the
     * remaining views are rendered, mounted and pushed.  Afterwards exactly one
     * product per view is visible, and every product stored before is still
     * stored, in the same place.
     */
    method Update(views: seq<V>)
      requires Valid()
      modifies this
      ensures Valid() && visible == |views|
      ensures Applied(old(list), list, views)
    {
      ghost var before := list;
      var updated := 0;
      while updated < visible && updated < |views|
        invariant updated <= visible <= |list| == |before| && updated <= |views|
        invariant Numbered(list) && Applied(before, list, views[..updated])
        invariant Children(effects) == Span(0, visible)
      {
        ApplyNext(before, list, views, updated);
        list := list[updated := list[updated].(view := views[updated])];
        ChildrenSnoc(effects, Updated(updated));
        effects := effects + [Updated(updated)];
        updated := updated + 1;
      }
      if visible > updated {
        assert views[..updated] == views;
        Hide(updated);
      } else {
        Reuse(updated, views, before);
      }
    }

    /** The first branch: every stored product from `updated` on is unmounted, and `updated` stay visible. */
    method Hide(updated: nat)
      requires Valid() && updated <= visible
      modifies this`visible, this`effects
      ensures Valid() && visible == updated
    {
      var j := updated;
      var trace := effects;
      while j < |list|
        invariant updated <= j <= |list|
        invariant Children(trace) == Span(0, updated) + Span(j, Max(j, visible))
        modifies {}
      {
        UnmountSpan(trace, updated, j, Max(j, visible));
        trace := trace + [Unmounted(list[j].id)];
        j := j + 1;
      }
      assert Span(0, updated) + Span(j, j) == Span(0, updated);
      effects := trace;
      visible := updated;
    }

    /**
     * The second branch, entered with every visible product updated: the
     * hidden products take the next views and are mounted, then the views
     * left over are rendered, mounted and pushed.
     */
    method Reuse(updated: nat, views: seq<V>, ghost before: seq<Product<V>>)
      requires Valid() && visible == updated <= |views| && |list| == |before|
      requires Applied(before, list, views[..updated])
      modifies this
      ensures Valid() && visible == |views|
      ensures Applied(before, list, views)
    {
      Remount(views, before);
      RenderRest(views, before);
    }

    /** The loop over the hidden products: each takes the next view and is mounted again. */
    method Remount(views: seq<V>, ghost before: seq<Product<V>>)
      requires Valid() && visible <= |views| && |list| == |before|
      requires Applied(before, list, views[..visible])
      modifies this
      ensures Valid() && visible <= |views| && |list| == |before|
      ensures Applied(before, list, views[..visible])
      ensures visible == |list| || visible == |views|
    {
      while visible < |list| && visible < |views|
        invariant Valid() && visible <= |views| && |list| == |before|
        invariant Applied(before, list, views[..visible])
      {
        var i := visible;
        ApplyNext(before, list, views, i);
        list := list[i := list[i].(view := views[i])];
        ChildrenSnoc(effects, Updated(i));
        AppendSpan(effects + [Updated(i)], i);
        assert effects + [Updated(i)] + [Appended(i)] == effects + [Updated(i), Appended(i)];
        effects := effects + [Updated(i), Appended(i)];
        visible := visible + 1;
      }
    }

    /** The loop over the views left over: each is rendered, mounted and pushed. */
    method RenderRest(views: seq<V>, ghost before: seq<Product<V>>)
      requires Valid() && visible <= |views| && |list| == |before|
      requires Applied(before, list, views[..visible])
      requires visible == |list| || visible == |views|
      modifies this
      ensures Valid() && visible == |views|
      ensures Applied(before, list, views)
    {
      ghost var w := list;
      ghost var i := visible;
      while visible < |views|
        invariant i <= visible <= |views|
        invariant list == w + Fresh(|w|, views[i..visible])
        invariant Children(effects) == Span(0, visible)
      {
        assert i == |w|;
        var k := visible;
        var p := Product(|list|, views[k]);
        BuildSpan(effects, k);
        effects := effects + [Built(p.id), Appended(p.id)];
        assert views[i..][..k - i] == views[i..k] && views[i..][..k - i + 1] == views[i..k + 1];
        FreshSnoc(|w|, views[i..], k - i);
        list := list + [p];
        visible := visible + 1;
      }
      NumberedFresh(w, views[i..visible]);
      if i == |w| {
        ExtendApplied(before, w, views);
      } else {
        assert views[..i] == views;
      }
    }
  }
}
