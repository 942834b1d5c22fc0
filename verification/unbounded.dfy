/**
 * The unbounded list engine: products live in a linked list that only ever
 * grows, `mounted` of them (a prefix) are in the fragment, and an update
 * walks the list with its iterator, pairing stored products with the new
 * views by position.
 *
 * Every product the list holds was built by the list itself, one after the
 * other, and none is ever dropped before the list is; so the nodes are
 * numbered by the position of the product that owns them, and the fragment
 * holding the first `mounted` products holds the nodes `Span(0, mounted)`.
 */
module Unbounded {
  import opened Host
  import opened Linked

  /** `ListProduct<P>`, with the host effects recorded as in `Bounded`. */
  class ListProduct<V> {
    const list: LinkedList<Product<V>>
    var mounted: nat
    var effects: seq<Effect>

    /** The fragment holds exactly the first `mounted` stored products, in order. */
    ghost predicate Valid()
      reads this, list, list.Repr
    {
      list.Valid() && this !in list.Repr && mounted <= list.len
      && Numbered(list.Contents) && Children(effects) == Span(0, mounted)
    }

    /** `build`: an empty list extended with every view, all of them mounted. */
    constructor (views: seq<V>)
      ensures Valid() && fresh(list) && fresh(list.Repr)
      ensures mounted == |views| && Applied([], list.Contents, views)
    {
      list := new LinkedList();
      mounted := 0;
      effects := [];
      new;
      Extend(views);
      assert views[0..] == views && [] + list.Contents == list.Contents;
      ExtendApplied([], [], views);
    }

    /**
     * `update`: the stored products are paired with the views by position;
     * the fragment then shows exactly one product per view, and every product
     * stored before is still stored, in the same place.
     */
    method Update(views: seq<V>)
      requires Valid()
      modifies this, list.Repr
      ensures Valid() && mounted == |views|
      ensures Applied(old(list.Contents), list.Contents, views)
    {
      ghost var items := list.Contents;
      var it, node, taken, trace := Walk(views);
      if node != null {
        Truncate(it, node, trace);
        assert views[..taken] == views;
      } else {
        ghost var walked := list.Contents;
        effects := trace;
        Extend(views[taken..]);
        ExtendApplied(items, walked, views);
      }
    }

    /**
     * The `while let` loop of `update`: the iterator hands out the stored
     * products one by one and each takes the next view, until either the list
     * or the views run out; `node` is the product the first view-less step
     * reached, if any, and `trace` the effects so far.
     */
    method Walk(views: seq<V>)
      returns (it: ListIter<Product<V>>, node: Node?<Product<V>>, taken: nat, trace: seq<Effect>)
      requires Valid()
      modifies list.Repr
      ensures fresh(it) && it.Valid() && it.nodes == list.nodes && it.end == list.len && it !in list.Repr
      ensures list.Valid() && list.nodes == old(list.nodes) && list.Repr == old(list.Repr)
      ensures Numbered(list.Contents)
      ensures taken <= |views| && taken <= list.len
      ensures node == null ==> taken == list.len
      ensures node != null ==> taken == |views| && it.pos == taken + 1 && node == list.nodes[taken]
      ensures Applied(old(list.Contents), list.Contents, views[..taken])
      ensures Children(trace) == Span(0, Max(mounted, taken))
    {
      ghost var items := list.Contents;
      it := list.Iter();
      taken := 0;
      trace := effects;
      while true
        invariant it.Valid() && it.nodes == list.nodes && it.end == list.len && it !in list.Repr
        invariant list.Valid() && list.nodes == old(list.nodes) && list.Repr == old(list.Repr)
        invariant taken == it.pos <= |views|
        invariant Numbered(list.Contents) && |list.Contents| == |items|
        invariant Applied(items, list.Contents, views[..taken])
        invariant Children(trace) == Span(0, Max(mounted, taken))
        modifies it, list.Repr
        decreases list.len - it.pos
      {
        node := it.Next(list);
        if node == null || taken == |views| {
          break;
        }
        trace := Refresh(node, it.pos, views, items, trace);
        taken := taken + 1;
      }
    }

    /**
     * `new.update(old)` on the product at 1-based position `pos`, then
     * `append` of its node when it was not mounted; gives the trace with
     * those effects added.
     */
    method Refresh(node: Node<Product<V>>, pos: nat, views: seq<V>, ghost items: seq<Product<V>>, trace: seq<Effect>)
      returns (after: seq<Effect>)
      requires list.Valid() && this !in list.Repr && Numbered(list.Contents)
      requires 0 < pos <= list.len && pos <= |views| && node == list.nodes[pos - 1]
      requires |items| == list.len && Applied(items, list.Contents, views[..pos - 1])
      requires mounted <= list.len && Children(trace) == Span(0, Max(mounted, pos - 1))
      modifies list, node
      ensures list.Valid() && list.nodes == old(list.nodes) && list.Repr == old(list.Repr)
      ensures Numbered(list.Contents) && Applied(items, list.Contents, views[..pos])
      ensures Children(after) == Span(0, Max(mounted, pos))
    {
      ApplyNext(items, list.Contents, views, pos - 1);
      var p := node.item;
      list.Put(node, pos - 1, p.(view := views[pos - 1]));
      ChildrenSnoc(trace, Updated(p.id));
      after := trace + [Updated(p.id)];
      if pos > mounted {
        AppendSpan(after, pos - 1);
        after := after + [Appended(p.id)];
      }
    }

    /**
     * The branch of `update` where the views ran out at the product `node`
     * (1-based position `pos`): `mounted` becomes `pos - 1`, and `old` and
     * the mounted products after it are unmounted.
     */
    method Truncate(it: ListIter<Product<V>>, node: Node<Product<V>>, trace: seq<Effect>)
      requires list.Valid() && this !in list.Repr && it !in list.Repr
      requires mounted <= list.len && Numbered(list.Contents)
      requires it.Valid() && it.nodes == list.nodes && it.end == list.len
      requires 0 < it.pos && node == list.nodes[it.pos - 1]
      requires Children(trace) == Span(0, Max(mounted, it.pos - 1))
      modifies this`mounted, this`effects, it
      ensures mounted == old(it.pos) - 1
      ensures Valid()
    {
      ghost var limit := mounted;
      it.Limit(mounted);
      mounted := it.Pos() - 1;
      effects := UnmountRest(it, node, trace, limit);
    }

    /**
     * The inner `loop` of that branch: `old` is unmounted, and so is every
     * product the iterator, limited to the `mounted` first ones, still hands out.
     */
    method UnmountRest(it: ListIter<Product<V>>, node: Node<Product<V>>, trace: seq<Effect>, ghost m: nat)
      returns (after: seq<Effect>)
      requires list.Valid() && it !in list.Repr && Numbered(list.Contents)
      requires it.Valid() && it.nodes == list.nodes && it.end == m <= list.len
      requires 0 < it.pos && node == list.nodes[it.pos - 1]
      requires Children(trace) == Span(0, Max(m, it.pos - 1))
      modifies it
      ensures Children(after) == Span(0, old(it.pos) - 1)
    {
      ghost var q := it.pos - 1;
      ghost var top := Max(m, q);
      var cur := node;
      after := trace;
      while true
        invariant it.Valid() && it.nodes == list.nodes && it.end == m
        invariant q < it.pos <= list.len && it.pos - 1 <= top
        invariant cur == list.nodes[it.pos - 1]
        invariant Children(after) == Span(0, q) + Span(it.pos - 1, top)
        decreases list.len - it.pos
      {
        var n;
        n, after := UnmountNode(it, cur, after, q, top);
        if n == null {
          break;
        }
        cur := n;
      }
    }

    /**
     * One turn of that loop: `cur`, the product the iterator handed out last,
     * is unmounted, and the iterator is asked for the next one.
     */
    method UnmountNode(it: ListIter<Product<V>>, cur: Node<Product<V>>, trace: seq<Effect>, ghost q: nat, ghost top: nat)
      returns (n: Node?<Product<V>>, after: seq<Effect>)
      requires list.Valid() && it !in list.Repr && Numbered(list.Contents)
      requires it.Valid() && it.nodes == list.nodes && top == Max(it.end, q)
      requires q < it.pos && it.pos - 1 <= top && cur == list.nodes[it.pos - 1]
      requires Children(trace) == Span(0, q) + Span(it.pos - 1, top)
      modifies it
      ensures it.Valid() && it.end == old(it.end)
      ensures n == null ==> Children(after) == Span(0, q)
      ensures n != null ==> it.pos == old(it.pos) + 1 && n == list.nodes[it.pos - 1]
      ensures n != null ==> it.pos - 1 <= top && Children(after) == Span(0, q) + Span(it.pos - 1, top)
    {
      assert cur.item.id == it.pos - 1;
      UnmountSpan(trace, q, it.pos - 1, top);
      after := trace + [Unmounted(cur.item.id)];
      n := it.Next(list);
    }

    /**
     * The corrected `extend`, called when every stored product is in the
     * fragment: each view is built, appended and pushed, and afterwards every
     * stored product is mounted.
     */
    method Extend(views: seq<V>)
      requires list.Valid() && this !in list.Repr && Numbered(list.Contents)
      requires Children(effects) == Span(0, list.len)
      modifies this, list.Repr
      ensures Valid() && mounted == list.len
      ensures fresh(list.Repr - old(list.Repr))
      ensures list.Contents == old(list.Contents) + Fresh(old(list.len), views)
    {
      ghost var n := list.len;
      ghost var before := list.Contents;
      var k := 0;
      var built := effects;
      while k < |views|
        invariant 0 <= k <= |views| && list.Valid() && this !in list.Repr
        invariant fresh(list.Repr - old(list.Repr))
        invariant list.len == n + k
        invariant list.Contents == before + Fresh(n, views[..k])
        invariant Children(built) == Span(0, list.len)
        modifies list.Repr
      {
        FreshSnoc(n, views, k);
        built := Build(views[k], built);
        assert list.Contents == before + (Fresh(n, views[..k]) + [Product(n + k, views[k])]);
        k := k + 1;
      }
      assert views[..k] == views;
      NumberedFresh(old(list.Contents), views);
      effects := built;
      mounted := list.len;
    }

    /** One step of that `extend`: the view is built, its node appended, its product pushed. */
    method Build(view: V, built: seq<Effect>) returns (after: seq<Effect>)
      requires list.Valid() && this !in list.Repr && Children(built) == Span(0, list.len)
      modifies list.Repr
      ensures list.Valid() && this !in list.Repr && fresh(list.Repr - old(list.Repr))
      ensures list.len == old(list.len) + 1
      ensures list.Contents == old(list.Contents) + [Product(old(list.len), view)]
      ensures Children(after) == Span(0, list.len)
    {
      var p := Product(list.len, view);
      BuildSpan(built, p.id);
      after := built + [Built(p.id), Appended(p.id)];
      list.Push(p);
    }
  }

  /**
   * The unbounded engine as the source writes it, as values: the stored
   * products, the mounted count and the effects.  Its `extend` never sets
   * `mounted`, so after `build` the count stays 0 and `update` takes every
   * stored product for unmounted.
   */
  datatype Engine<V> = Engine(items: seq<Product<V>>, mounted: nat, effects: seq<Effect>)

  /** The effects of the `while let` loop pairing the products `lo` to `hi` with views. */
  function Updates(lo: nat, hi: nat, mounted: nat): (t: seq<Effect>)
    requires lo <= hi
    ensures |t| == (hi - lo) + (if mounted <= lo then hi - lo else if mounted < hi then hi - mounted else 0)
    ensures forall x :: x in t ==> x.Updated? || x.Appended?
    ensures forall i: nat :: Updated(i) in t <==> lo <= i < hi
    ensures forall i: nat :: Appended(i) in t <==> lo <= i < hi && mounted <= i
    decreases hi - lo
  {
    if lo == hi then []
    else [Updated(lo)] + (if lo + 1 > mounted then [Appended(lo)] else []) + Updates(lo + 1, hi, mounted)
  }

  /** The effects of the inner `loop` unmounting the products `lo` to `hi`, in order. */
  function Unmounts(lo: nat, hi: nat): (t: seq<Effect>)
    requires lo <= hi
    ensures |t| == hi - lo
    ensures forall i :: 0 <= i < hi - lo ==> t[i] == Unmounted(lo + i)
    decreases hi - lo
  {
    if lo == hi then [] else [Unmounted(lo)] + Unmounts(lo + 1, hi)
  }

  /** `build` as written: every view built and appended, `mounted` left at 0. */
  function BuildAsWritten<V>(views: seq<V>): (e: Engine<V>)
    ensures e.items == Fresh(0, views) && e.mounted == 0
    ensures |e.effects| == 2 * |views| && Children(e.effects) == Span(0, |views|)
  {
    BuildsSpan([], 0, |views|);
    assert [] + Builds(0, |views|) == Builds(0, |views|);
    Engine(Fresh(0, views), 0, Builds(0, |views|))
  }

  /**
   * `update` as written: the views are applied by position; when they run
   * out first the count drops to their number and the products from there up
   * to the old count are unmounted, otherwise the rest are built and appended
   * and the count is left as it was.
   */
  function UpdateAsWritten<V>(e: Engine<V>, views: seq<V>): (r: Engine<V>)
    ensures Applied(e.items, r.items, views)
    ensures r.mounted == if |views| < |e.items| then |views| else e.mounted
  {
    var n := |e.items|;
    var k := if n <= |views| then n else |views|;
    var applied := seq(n, i requires 0 <= i < n => if i < k then e.items[i].(view := views[i]) else e.items[i]);
    var paired := e.effects + Updates(0, k, e.mounted);
    if |views| < n then
      var end := if n <= e.mounted then n else e.mounted;
      var last := if end <= |views| + 1 then |views| + 1 else end;
      Engine(applied, |views|, paired + Unmounts(|views|, last))
    else
      var r := Engine(applied + Fresh(n, views[n..]), e.mounted, paired + Builds(n, |views|));
      assert forall i :: n <= i < |r.items| ==> r.items[i] == Fresh(n, views[n..])[i - n];
      r
  }

  /**
   * Three views built, then an update down to one: the update moves node 0
   * behind node 2 (it takes it for unmounted) and unmounts only node 1, so
   * node 2 stays in the fragment although one product is mounted.
   */
  lemma StaleMountedCount<V>(a: V)
    ensures var e := UpdateAsWritten(BuildAsWritten([a, a, a]), [a]);
      e.mounted == 1 && Children(e.effects) == [2, 0] && Children(e.effects) != Span(0, e.mounted)
  {
    var b := BuildAsWritten([a, a, a]);
    assert Children(b.effects) == [0, 1, 2] by {
      assert Span(0, 3) == [0, 1, 2];
    }
    StaleEffects(b, [a]);
    StaleChildren(b.effects);
  }

  /** Updating three products none of which is counted as mounted with one view. */
  lemma {:induction false} StaleEffects<V>(b: Engine<V>, views: seq<V>)
    requires |b.items| == 3 && b.mounted == 0 && |views| == 1
    ensures UpdateAsWritten(b, views).mounted == 1
    ensures UpdateAsWritten(b, views).effects == b.effects + [Updated(0), Appended(0)] + [Unmounted(1)]
  {
    assert Updates(1, 1, 0) == [] && Unmounts(2, 2) == [];
  }

  /** What those effects do to a fragment holding nodes 0, 1 and 2. */
  lemma {:induction false} StaleChildren(t: seq<Effect>)
    requires Children(t) == [0, 1, 2]
    ensures Children(t + [Updated(0), Appended(0)] + [Unmounted(1)]) == [2, 0]
  {
    var paired := t + [Updated(0), Appended(0)];
    ChildrenSnoc(t, Updated(0));
    ChildrenSnoc(t + [Updated(0)], Appended(0));
    assert t + [Updated(0)] + [Appended(0)] == paired;
    assert Remove([0, 1, 2], 0) == [1, 2] by {
      assert [0, 1, 2][1..] == [1, 2] && [1, 2][1..] == [2] && [2][1..] == [];
    }
    assert Children(paired) == [1, 2, 0];
    ChildrenSnoc(paired, Unmounted(1));
    assert Remove([1, 2, 0], 1) == [2, 0] by {
      assert [1, 2, 0][1..] == [2, 0] && [2, 0][1..] == [0] && [0][1..] == [];
    }
  }
}
