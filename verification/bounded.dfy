/**
 * The fixed-capacity list engine: a vector of at most `N` products kept in an
 * array of possibly-uninitialised slots, a count of how many of them are
 * mounted in the list's fragment, and positional diffing of a fresh run of
 * views against the stored products.  Products beyond the mounted count are
 * kept (detached) for reuse.
 */
module Bounded {
  import opened Wrappers
  import opened Host

  /** A `MaybeUninit` slot of the backing array. */
  datatype Slot<T> = Uninit | Init(value: T)

  function Min(a: nat, b: nat): nat {
    if a <= b then a else b
  }

  /** The first `Some` that `hit` gives along `ps`, as `find_map` finds it. */
  function FindMap<T, R>(ps: seq<T>, hit: T -> Option<R>): Option<R> {
    if ps == [] then None
    else if hit(ps[0]).Some? then hit(ps[0])
    else FindMap(ps[1..], hit)
  }

  /** `find_map` answers with the first position that reacts, or not at all when none does. */
  lemma {:induction false} FindMapFirst<T, R>(ps: seq<T>, hit: T -> Option<R>)
    ensures FindMap(ps, hit).None? <==> forall i :: 0 <= i < |ps| ==> hit(ps[i]).None?
    ensures FindMap(ps, hit).Some? ==>
      exists i :: 0 <= i < |ps| && hit(ps[i]) == FindMap(ps, hit)
        && forall j :: 0 <= j < i ==> hit(ps[j]).None?
  {
    if ps != [] && hit(ps[0]).None? {
      FindMapFirst(ps[1..], hit);
      if FindMap(ps, hit).Some? {
        var i :| 0 <= i < |ps| - 1 && hit(ps[1..][i]) == FindMap(ps, hit)
          && forall j :: 0 <= j < i ==> hit(ps[1..][j]).None?;
        assert hit(ps[i + 1]) == FindMap(ps, hit);
        forall j | 0 <= j < i + 1 ensures hit(ps[j]).None? {
          if j > 0 { assert ps[j] == ps[1..][j - 1]; }
        }
      } else {
        forall i | 0 <= i < |ps| ensures hit(ps[i]).None? {
          if i > 0 { assert ps[i] == ps[1..][i - 1]; }
        }
      }
    } else if ps != [] {
      assert hit(ps[0]) == FindMap(ps, hit);
    }
  }

  /** `BoundedVec<T, N>`: `N` slots, the first `len` of them written. */
  class BoundedVec<T> {
    const data: array<Slot<T>>
    var len: nat
    ghost var Contents: seq<T>

    ghost predicate Valid()
      reads this, data
    {
      len <= data.Length && |Contents| == len
      && (forall i :: 0 <= i < len ==> data[i] == Init(Contents[i]))
      && (forall i :: len <= i < data.Length ==> data[i] == Uninit)
    }

    /** `BoundedVec::new`: every slot uninitialised. */
    constructor (n: nat)
      ensures Valid() && fresh(data) && data.Length == n && Contents == []
    {
      data := new Slot<T>[n](_ => Uninit);
      len := 0;
      Contents := [];
    }

    function Len(): (n: nat)
      reads this, data
      requires Valid()
      ensures n == |Contents| <= data.Length
    {
      len
    }

    /** `Deref`: the slice of the written slots, which is exactly the contents. */
    function Deref(): (s: seq<T>)
      reads this, data
      requires Valid()
      ensures s == Contents
    {
      var n := len;
      seq(n, i requires 0 <= i < n && i < data.Length && data[i].Init? reads data => data[i].value)
    }

    /** `push`: refused, changing nothing, when full; otherwise written at `len`. */
    method Push(item: T) returns (ok: bool)
      requires Valid()
      modifies this, data
      ensures Valid()
      ensures ok <==> old(len) < data.Length
      ensures Contents == if ok then old(Contents) + [item] else old(Contents)
      ensures !ok ==> unchanged(this) && unchanged(data)
    {
      if len >= data.Length {
        return false;
      }
      data[len] := Init(item);
      len := len + 1;
      Contents := Contents + [item];
      ok := true;
    }

    /** `DerefMut` followed by a write through the element reference. */
    method Set(i: nat, item: T)
      requires Valid() && i < len
      modifies this, data
      ensures Valid() && len == old(len)
      ensures Contents == old(Contents)[i := item]
    {
      data[i] := Init(item);
      Contents := Contents[i := item];
    }

    /** `extend`: every item is offered to `push`; those past capacity are dropped. */
    method Extend(items: seq<T>)
      requires Valid()
      modifies this, data
      ensures Valid()
      ensures Contents == old(Contents) + items[..Min(|items|, data.Length - old(len))]
    {
      var k := 0;
      while k < |items|
        invariant 0 <= k <= |items| && Valid()
        invariant Contents == old(Contents) + items[..Min(k, data.Length - old(len))]
      {
        var _ := Push(items[k]);
        k := k + 1;
      }
    }
  }

  /**
   * `BoundedProduct<P, N>`.  `effects` is everything the list asked of the
   * host, the fragment's children being its replay.  Every stored product was
   * built by the list, in order, and none is ever dropped, so product `i`
   * owns node `i`.
   */
  class BoundedProduct<V> {
    const list: BoundedVec<Product<V>>
    var mounted: nat
    var effects: seq<Effect>

    /** The fragment holds exactly the first `mounted` stored products, in order. */
    ghost predicate Valid()
      reads this, list, list.data
    {
      list.Valid() && mounted <= list.len
      && Numbered(list.Contents) && Children(effects) == Span(0, mounted)
    }

    function Capacity(): nat
      reads this
    {
      list.data.Length
    }

    /** `build`: an empty list extended with every view; at most `n` are kept, all of them mounted. */
    constructor (n: nat, views: seq<V>)
      ensures Valid() && Capacity() == n
      ensures mounted == list.len == Min(|views|, n)
      ensures Applied([], list.Contents, views[..mounted])
    {
      list := new BoundedVec(n);
      mounted := 0;
      effects := [];
      new;
      Extend(views);
      assert views[..mounted][0..] == views[..mounted] && [] + list.Contents == list.Contents;
      ExtendApplied([], [], views[..mounted]);
    }

    /**
     * `update`: the stored products are paired with the views by position;
     * the list then shows exactly one product per view, up to capacity, and
     * keeps every product it had.
     */
    method Update(views: seq<V>)
      requires Valid()
      modifies this, list, list.data
      ensures Valid() && mounted == Min(|views|, Capacity())
      ensures Applied(old(list.Contents), list.Contents, views[..mounted])
    {
      ghost var items := list.Contents;
      var updated, trace := Pair(views);
      effects := trace;
      if updated < mounted {
        Unmount(updated);
        assert views[..updated] == views[..mounted];
      } else {
        Mount(updated);
        if updated == list.Len() {
          Grow(items, views);
        } else {
          assert views[..updated] == views[..mounted];
        }
      }
    }

    /** The last step of `update` once every stored product took a view: the rest are extended. */
    method Grow(ghost items: seq<Product<V>>, views: seq<V>)
      requires Valid() && mounted == list.len == |items| <= |views|
      requires Applied(items, list.Contents, views[..mounted])
      modifies this, list, list.data
      ensures Valid() && mounted == Min(|views|, Capacity())
      ensures Applied(items, list.Contents, views[..mounted])
    {
      var updated := list.Len();
      ghost var walked := list.Contents;
      Extend(views[updated..]);
      assert views[..mounted][..|items|] == views[..updated];
      assert views[..mounted][|items|..] == views[updated..][..mounted - updated];
      ExtendApplied(items, walked, views[..mounted]);
    }

    /**
     * The first loop of `update`: each stored product, in order, takes the
     * view at its position, until the products or the views run out; gives
     * how many were updated and the effects so far.
     */
    method Pair(views: seq<V>) returns (updated: nat, trace: seq<Effect>)
      requires Valid()
      modifies list, list.data
      ensures list.Valid() && Numbered(list.Contents)
      ensures updated == Min(old(list.len), |views|)
      ensures Applied(old(list.Contents), list.Contents, views[..updated])
      ensures Children(trace) == Span(0, mounted)
    {
      ghost var items := list.Contents;
      updated := 0;
      trace := effects;
      while updated < list.Len() && updated < |views|
        invariant list.Valid() && list.len == |items| && updated <= |items| && updated <= |views|
        invariant Numbered(list.Contents) && Applied(items, list.Contents, views[..updated])
        invariant Children(trace) == Span(0, mounted)
        modifies list, list.data
      {
        var p := list.Deref()[updated];
        ApplyNext(items, list.Contents, views, updated);
        list.Set(updated, p.(view := views[updated]));
        ChildrenSnoc(trace, Host.Updated(p.id));
        trace := trace + [Host.Updated(p.id)];
        updated := updated + 1;
      }
    }

    /** The corrected `extend`: only views that will be stored are built and appended. */
    method Extend(views: seq<V>)
      requires Valid() && mounted == list.len
      modifies this, list, list.data
      ensures Valid() && mounted == list.len == old(list.len) + Min(|views|, Capacity() - old(list.len))
      ensures list.Contents == old(list.Contents) + Fresh(old(list.len), views[..list.len - old(list.len)])
    {
      ghost var n := list.len;
      var built := BuildAll(views, effects);
      NumberedFresh(old(list.Contents), views[..list.len - n]);
      effects := built;
      mounted := list.Len();
    }

    /** The loop of that `extend`: views are built and pushed while there is room. */
    method BuildAll(views: seq<V>, effects0: seq<Effect>) returns (built: seq<Effect>)
      requires list.Valid() && Children(effects0) == Span(0, list.len)
      modifies list, list.data
      ensures list.Valid() && list.len == old(list.len) + Min(|views|, list.data.Length - old(list.len))
      ensures list.Contents == old(list.Contents) + Fresh(old(list.len), views[..list.len - old(list.len)])
      ensures Children(built) == Span(0, list.len)
    {
      ghost var n := list.len;
      ghost var before := list.Contents;
      var k := 0;
      built := effects0;
      while k < |views|
        invariant 0 <= k <= |views| && list.Valid()
        invariant n <= list.len <= n + k && (list.len < n + k ==> list.len == list.data.Length)
        invariant list.Contents == before + Fresh(n, views[..list.len - n])
        invariant Children(built) == Span(0, list.len)
      {
        if list.Len() < list.data.Length {
          built := Build(views[k], built);
          FreshStep(before, n, views, k);
        }
        k := k + 1;
      }
    }

    /** One product more stored by that `extend` is the next one built. */
    lemma {:induction false} FreshStep(before: seq<Product<V>>, n: nat, views: seq<V>, k: nat)
      requires k < |views|
      ensures before + Fresh(n, views[..k]) + [Product(n + k, views[k])] == before + Fresh(n, views[..k + 1])
    {
      FreshSnoc(n, views, k);
    }

    /** One step of that `extend`: the view is built, its node appended, its product pushed. */
    method Build(view: V, built: seq<Effect>) returns (after: seq<Effect>)
      requires list.Valid() && list.len < list.data.Length && Children(built) == Span(0, list.len)
      modifies list, list.data
      ensures list.Valid() && list.len == old(list.len) + 1
      ensures list.Contents == old(list.Contents) + [Product(old(list.len), view)]
      ensures Children(after) == Span(0, list.len)
    {
      var p := Product(list.Len(), view);
      BuildSpan(built, p.id);
      after := built + [Built(p.id), Appended(p.id)];
      var _ := list.Push(p);
    }

    /** `unmount(from)`: the products from `from` up to the mounted count leave the fragment. */
    method Unmount(from: nat)
      requires Valid() && from <= mounted
      modifies this
      ensures Valid() && mounted == from
    {
      var j := from;
      var trace := effects;
      while j < mounted
        invariant from <= j <= mounted
        invariant Children(trace) == Span(0, from) + Span(j, mounted)
        modifies {}
      {
        UnmountSpan(trace, from, j, mounted);
        trace := trace + [Unmounted(list.Deref()[j].id)];
        j := j + 1;
      }
      assert Span(j, mounted) == [] && Span(0, from) + [] == Span(0, from);
      effects := trace;
      mounted := from;
    }

    /** `mount(to)`: the kept products from the mounted count up to `to` are appended again, in order. */
    method Mount(to: nat)
      requires Valid() && mounted <= to <= list.len
      modifies this
      ensures Valid() && mounted == to
    {
      var j := mounted;
      var trace := effects;
      while j < to
        invariant mounted <= j <= to
        invariant Children(trace) == Span(0, j)
        modifies {}
      {
        AppendSpan(trace, j);
        trace := trace + [Appended(list.Deref()[j].id)];
        j := j + 1;
      }
      effects := trace;
      mounted := to;
    }

    /** `trigger`: the first stored product, mounted or kept, that reacts to the event. */
    method Trigger<R>(hit: Product<V> -> Option<R>) returns (r: Option<R>)
      requires Valid()
      ensures r == FindMap(list.Contents, hit)
    {
      var ps := list.Deref();
      var i := 0;
      while i < |ps|
        invariant 0 <= i <= |ps|
        invariant FindMap(ps[i..], hit) == FindMap(ps, hit)
      {
        if hit(ps[i]).Some? {
          return hit(ps[i]);
        }
        assert ps[i..][1..] == ps[i + 1..];
        i := i + 1;
      }
      return None;
    }
  }

  /**
   * `extend` as written: every remaining view is built and appended to the
   * fragment, and only then offered to `push`, which drops it when full.
   * Gives the stored products, the effects and the next node.
   */
  function ExtendAsWritten<V>(cap: nat, items: seq<Product<V>>, effects: seq<Effect>, next: Id, views: seq<V>)
    : (r: (seq<Product<V>>, seq<Effect>, Id))
    ensures |r.0| == Min(|items| + |views|, if |items| <= cap then cap else |items|)
    ensures r.2 == next + |views|
    decreases |views|
  {
    if views == [] then (items, effects, next)
    else
      var built := Product(next, views[0]);
      var kept := if |items| < cap then items + [built] else items;
      ExtendAsWritten(cap, kept, effects + [Built(next), Appended(next)], next + 1, views[1..])
  }

  /** As written, every view is built and its node appended, in order, stored or not. */
  lemma {:induction false} ExtendAsWrittenBuilds<V>(cap: nat, items: seq<Product<V>>, effects: seq<Effect>, next: Id, views: seq<V>)
    ensures ExtendAsWritten(cap, items, effects, next, views).1 == effects + Builds(next, next + |views|)
    decreases |views|
  {
    if views != [] {
      var built := Product(next, views[0]);
      var kept := if |items| < cap then items + [built] else items;
      var more := effects + [Built(next), Appended(next)];
      ExtendAsWrittenBuilds(cap, kept, more, next + 1, views[1..]);
      var b := Builds(next + 1, next + |views|);
      assert Builds(next, next + |views|) == [Built(next), Appended(next)] + b;
      assert more + b == effects + ([Built(next), Appended(next)] + b);
    } else {
      assert effects + [] == effects;
    }
  }

  /** As written, the products stored are the first ones built, as many as fit. */
  lemma {:induction false} ExtendAsWrittenStores<V>(cap: nat, items: seq<Product<V>>, effects: seq<Effect>, next: Id, views: seq<V>)
    ensures var r := ExtendAsWritten(cap, items, effects, next, views);
      |items| <= |r.0| && r.0 == items + Fresh(next, views)[..|r.0| - |items|]
    decreases |views|
  {
    if views != [] {
      var built := Product(next, views[0]);
      var kept := if |items| < cap then items + [built] else items;
      var more := effects + [Built(next), Appended(next)];
      var r := ExtendAsWritten(cap, kept, more, next + 1, views[1..]);
      ExtendAsWrittenStores(cap, kept, more, next + 1, views[1..]);
      var m := |r.0| - |kept|;
      var rest := Fresh(next + 1, views[1..])[..m];
      assert r.0 == kept + rest;
      if |items| < cap {
        StoredCons(items, next, views, m);
      } else {
        assert m == 0 && rest == [];
      }
    }
  }

  /** A product built and stored, then the ones after it: the first ones built, in order. */
  lemma {:induction false} StoredCons<V>(items: seq<Product<V>>, next: Id, views: seq<V>, m: nat)
    requires m < |views|
    ensures items + [Product(next, views[0])] + Fresh(next + 1, views[1..])[..m] == items + Fresh(next, views)[..m + 1]
  {
    FreshCons(next, views, m);
    var rest := Fresh(next + 1, views[1..])[..m];
    assert items + [Product(next, views[0])] + rest == items + ([Product(next, views[0])] + rest);
  }

  /**
   * With room for one product, two views leave two nodes in the fragment but
   * only one product stored: the second node can never be unmounted again.
   */
  lemma OverflowLeavesUntrackedNode<V>(v: V)
    ensures var r := ExtendAsWritten(1, [], [], 0, [v, v]);
      r.0 == [Product(0, v)] && Children(r.1) == [0, 1] != Ids(r.0)
  {
    var r := ExtendAsWritten(1, [], [], 0, [v, v]);
    ExtendAsWrittenStores(1, [], [], 0, [v, v]);
    assert |r.0| == 1;
    assert r.0 == [Product(0, v)] by {
      assert r.0[0] == Fresh(0, [v, v])[0];
    }
    ExtendAsWrittenBuilds(1, [], [], 0, [v, v]);
    BuildsSpan([], 0, 2);
    assert [] + Builds(0, 2) == r.1;
    assert Span(0, 2) == [0, 1];
    assert Ids(r.0) == [0];
  }
}
