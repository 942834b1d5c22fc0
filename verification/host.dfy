/**
 * The host side of rendering, seen from the runtime: products are abstract
 * values carrying the id of the DOM node they own and the view last applied
 * to them, and everything the runtime asks of the DOM is an entry in an
 * effect trace.  The children of a list's fragment are what replaying that
 * trace leaves: `append` moves a node to the end (a DOM node has one parent),
 * `unmount` detaches it, `replace_with` puts the new node where the old was.
 */
module Host {

  /** A host node, identified by the order in which it was created. */
  type Id = nat

  datatype Effect =
    | Built(id: Id)                 // a view built a fresh product owning node `id`
    | Updated(id: Id)               // a new view was applied to the product owning `id`
    | Appended(id: Id)              // `fragment.append(p.js())`
    | Unmounted(id: Id)             // `p.unmount()`
    | Replaced(from: Id, to: Id)    // `p.replace_with(to)`
    | Called(id: Id)                // a user handler was given node `id`

  /** A product: the node it owns and the last view it was built or updated from. */
  datatype Product<V> = Product(id: Id, view: V)

  function Ids<V>(ps: seq<Product<V>>): (ids: seq<Id>)
    ensures |ids| == |ps|
    ensures forall i :: 0 <= i < |ps| ==> ids[i] == ps[i].id
  {
    seq(|ps|, i requires 0 <= i < |ps| => ps[i].id)
  }

  function Max(a: nat, b: nat): nat {
    if a >= b then a else b
  }

  /** Product `i` owns node `i`. */
  ghost predicate Numbered<V>(ps: seq<Product<V>>) {
    forall i :: 0 <= i < |ps| ==> ps[i].id == i
  }

  /**
   * `after` is `before` with the views applied by position: one product per
   * stored product or view, whichever are more, the products past the views
   * left as they were.
   */
  ghost predicate Applied<V>(before: seq<Product<V>>, after: seq<Product<V>>, views: seq<V>) {
    |after| == Max(|before|, |views|)
    && forall i :: 0 <= i < |after| ==>
      after[i].view == (if i < |views| then views[i] else before[i].view)
  }

  /** Applying one more view to the next stored product, its node kept. */
  lemma ApplyNext<V>(items: seq<Product<V>>, ps: seq<Product<V>>, views: seq<V>, k: nat)
    requires k < |items| && k < |views| && Applied(items, ps, views[..k])
    requires Numbered(ps)
    ensures Applied(items, ps[k := ps[k].(view := views[k])], views[..k + 1])
    ensures Numbered(ps[k := ps[k].(view := views[k])])
  {
  }

  /** The products built, one per view, owning the nodes from `lo` on. */
  function Fresh<V>(lo: nat, views: seq<V>): (ps: seq<Product<V>>)
    ensures |ps| == |views|
    ensures forall i :: 0 <= i < |ps| ==> ps[i] == Product(lo + i, views[i])
  {
    seq(|views|, i requires 0 <= i < |views| => Product(lo + i, views[i]))
  }

  /** Building one more view adds its product at the end. */
  lemma FreshSnoc<V>(lo: nat, views: seq<V>, k: nat)
    requires k < |views|
    ensures Fresh(lo, views[..k]) + [Product(lo + k, views[k])] == Fresh(lo, views[..k + 1])
  {
    assert (Fresh(lo, views[..k]) + [Product(lo + k, views[k])])[k] == Product(lo + k, views[k]);
  }

  /** Products built after the numbered ones keep the numbering. */
  lemma NumberedFresh<V>(ps: seq<Product<V>>, views: seq<V>)
    requires Numbered(ps)
    ensures Numbered(ps + Fresh(|ps|, views))
  {
    var qs := ps + Fresh(|ps|, views);
    forall i | 0 <= i < |qs| ensures qs[i].id == i {
      if i >= |ps| {
        assert qs[i] == Fresh(|ps|, views)[i - |ps|];
      }
    }
  }

  /** Applying the views to every stored product, then building the rest, applies all of them. */
  lemma ExtendApplied<V>(a: seq<Product<V>>, b: seq<Product<V>>, views: seq<V>)
    requires |a| <= |views| && Applied(a, b, views[..|a|])
    ensures Applied(a, b + Fresh(|b|, views[|a|..]), views)
  {
    var c := b + Fresh(|b|, views[|a|..]);
    forall i | 0 <= i < |c|
      ensures c[i].view == views[i]
    {
      if i < |b| {
        assert c[i] == b[i];
      } else {
        assert c[i] == Fresh(|b|, views[|a|..])[i - |b|];
      }
    }
  }

  /** `c` with every occurrence of `x` taken out, order kept. */
  function Remove(c: seq<Id>, x: Id): (r: seq<Id>)
    ensures x !in r
    ensures forall y :: y in r ==> y in c
    ensures |r| <= |c|
  {
    if c == [] then []
    else if c[0] == x then Remove(c[1..], x)
    else [c[0]] + Remove(c[1..], x)
  }

  /** What one effect does to the list of children of a fragment. */
  function Step(c: seq<Id>, e: Effect): seq<Id> {
    match e
    case Appended(id) => Remove(c, id) + [id]
    case Unmounted(id) => Remove(c, id)
    case Replaced(from, to) => ReplaceIn(c, from, to)
    case _ => c
  }

  /** `from`'s place taken by `to`, which first leaves wherever it was. */
  function ReplaceIn(c: seq<Id>, from: Id, to: Id): seq<Id> {
    var d := Remove(c, to);
    if from == to then c
    else seq(|d|, i requires 0 <= i < |d| => if d[i] == from then to else d[i])
  }

  /** The children a fragment holding `c` has after the effects `t`, in order. */
  function Replay(c: seq<Id>, t: seq<Effect>): seq<Id>
    decreases |t|
  {
    if t == [] then c else Replay(Step(c, t[0]), t[1..])
  }

  /** The children of a fragment that started empty, after the whole trace. */
  function Children(t: seq<Effect>): seq<Id> {
    Replay([], t)
  }

  /** Replaying two traces one after the other is replaying their concatenation. */
  lemma {:induction false} ReplayConcat(c: seq<Id>, t: seq<Effect>, u: seq<Effect>)
    ensures Replay(c, t + u) == Replay(Replay(c, t), u)
    decreases |t|
  {
    if t != [] {
      assert (t + u)[0] == t[0] && (t + u)[1..] == t[1..] + u;
      assert Replay(c, t + u) == Replay(Step(c, t[0]), t[1..] + u);
      ReplayConcat(Step(c, t[0]), t[1..], u);
      assert Replay(c, t) == Replay(Step(c, t[0]), t[1..]);
    } else {
      assert t + u == u;
    }
  }

  /** Replaying one more effect is one more step. */
  lemma ChildrenSnoc(t: seq<Effect>, e: Effect)
    ensures Children(t + [e]) == Step(Children(t), e)
  {
    ReplayConcat([], t, [e]);
  }

  lemma {:induction false} RemoveAbsent(c: seq<Id>, x: Id)
    requires x !in c
    ensures Remove(c, x) == c
  {
    if c != [] {
      RemoveAbsent(c[1..], x);
    }
  }

  lemma {:induction false} RemoveConcat(a: seq<Id>, b: seq<Id>, x: Id)
    ensures Remove(a + b, x) == Remove(a, x) + Remove(b, x)
  {
    if a != [] {
      assert (a + b)[0] == a[0] && (a + b)[1..] == a[1..] + b;
      RemoveConcat(a[1..], b, x);
    } else {
      assert a + b == b;
    }
  }

  /** The nodes `lo`, `lo + 1`, ..., `hi - 1`, in that order. */
  function Span(lo: nat, hi: nat): (s: seq<Id>)
    requires lo <= hi
    ensures |s| == hi - lo
    ensures forall i :: 0 <= i < |s| ==> s[i] == lo + i
  {
    seq(hi - lo, i requires 0 <= i < hi - lo => lo + i)
  }

  /**
   * Unmounting node `j` from a fragment holding the nodes below `q` and then
   * `j` up to `top`: it leaves the second run when it heads it, and changes
   * nothing when that run is already empty.
   */
  lemma UnmountSpan(t: seq<Effect>, q: nat, j: nat, top: nat)
    requires q <= j <= top
    requires Children(t) == Span(0, q) + Span(j, top)
    ensures j < top ==> Children(t + [Unmounted(j)]) == Span(0, q) + Span(j + 1, top)
    ensures top <= j + 1 ==> Children(t + [Unmounted(j)]) == Span(0, q)
  {
    ChildrenSnoc(t, Unmounted(j));
    RemoveConcat(Span(0, q), Span(j, top), j);
    RemoveAbsent(Span(0, q), j);
    if j < top {
      assert Span(j, top)[1..] == Span(j + 1, top);
      RemoveAbsent(Span(j + 1, top), j);
      if top == j + 1 {
        assert Span(0, q) + Span(j + 1, top) == Span(0, q);
      }
    } else {
      assert Span(j, top) == [];
      assert Span(0, q) + [] == Span(0, q);
    }
  }

  /** Appending node `p` to a fragment holding the nodes below `p` mounts one more. */
  lemma AppendSpan(t: seq<Effect>, p: nat)
    requires Children(t) == Span(0, p)
    ensures Children(t + [Appended(p)]) == Span(0, p + 1)
  {
    ChildrenSnoc(t, Appended(p));
    AppendFresh(Span(0, p), p);
    assert Span(0, p) + [p] == Span(0, p + 1);
  }

  /** Appending a node that is not yet a child puts it at the end. */
  lemma AppendFresh(c: seq<Id>, x: Id)
    requires x !in c
    ensures Step(c, Appended(x)) == c + [x]
  {
    RemoveAbsent(c, x);
  }

  /** Building a fresh product and appending its node adds that node at the end. */
  lemma BuildAppend(t: seq<Effect>, x: Id)
    requires x !in Children(t)
    ensures Children(t + [Built(x), Appended(x)]) == Children(t) + [x]
  {
    ChildrenSnoc(t, Built(x));
    ChildrenSnoc(t + [Built(x)], Appended(x));
    AppendFresh(Children(t), x);
    assert t + [Built(x), Appended(x)] == t + [Built(x)] + [Appended(x)];
  }

  /** Building node `p` and appending it to a fragment holding the nodes below `p` mounts one more. */
  lemma BuildSpan(t: seq<Effect>, p: nat)
    requires Children(t) == Span(0, p)
    ensures Children(t + [Built(p), Appended(p)]) == Span(0, p + 1)
  {
    BuildAppend(t, p);
    assert Span(0, p) + [p] == Span(0, p + 1);
  }

  /** The effects of `extend` building and appending the products `lo` to `hi`, in order. */
  function Builds(lo: nat, hi: nat): (t: seq<Effect>)
    requires lo <= hi
    ensures |t| == 2 * (hi - lo)
    decreases hi - lo
  {
    if lo == hi then [] else [Built(lo), Appended(lo)] + Builds(lo + 1, hi)
  }

  /** The `i`th effect of building `lo..hi`: node `lo + i / 2` is built, then appended. */
  lemma {:induction false} BuildsAt(lo: nat, hi: nat, i: nat)
    requires lo <= hi && i < 2 * (hi - lo)
    ensures Builds(lo, hi)[i] == if i % 2 == 0 then Built(lo + i / 2) else Appended(lo + i / 2)
    decreases hi - lo
  {
    if i >= 2 {
      BuildsAt(lo + 1, hi, i - 2);
      assert (i - 2) % 2 == i % 2 && (i - 2) / 2 + 1 == i / 2;
    }
  }

  /** The first `m + 1` products built from `lo` on: the first view's, then the next `m`. */
  lemma FreshCons<V>(lo: nat, views: seq<V>, m: nat)
    requires m < |views|
    ensures Fresh(lo, views)[..m + 1] == [Product(lo, views[0])] + Fresh(lo + 1, views[1..])[..m]
  {
  }

  /** Building the nodes `lo` to `hi` after those below `lo` leaves the nodes below `hi`, in order. */
  lemma {:induction false} BuildsSpan(t: seq<Effect>, lo: nat, hi: nat)
    requires lo <= hi && Children(t) == Span(0, lo)
    ensures Children(t + Builds(lo, hi)) == Span(0, hi)
    decreases hi - lo
  {
    if lo < hi {
      BuildSpan(t, lo);
      BuildsSpan(t + [Built(lo), Appended(lo)], lo + 1, hi);
      assert t + [Built(lo), Appended(lo)] + Builds(lo + 1, hi) == t + Builds(lo, hi);
    } else {
      assert t + [] == t;
    }
  }
}
