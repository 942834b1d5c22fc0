/**
 * Lists as views: the `List` wrapper that `for` and `for<N>` make from an
 * iterator, the views for vectors, slices and arrays that go through it,
 * and the `use` and `static` keywords.
 */
module ListView {
  import opened Host
  import opened Diff
  import Bounded
  import Unbounded

  /** `List<T, Unbounded>` and `List<T, Bounded<N>>`: the views the iterator yields, and the bound. */
  datatype List<V> = List(items: seq<V>) | BoundedList(n: nat, items: seq<V>)

  /** `List::new`, and the `for` keyword: the iterator wrapped as it is, unbounded. */
  function New<V>(items: seq<V>): (l: List<V>)
    ensures l.List? && l.items == items
  {
    List(items)
  }

  /** `List::new_bounded`, and the `for<N>` keyword: the iterator wrapped as it is, bounded to `n`. */
  function NewBounded<V>(n: nat, items: seq<V>): (l: List<V>)
    ensures l.BoundedList? && l.n == n && l.items == items
  {
    BoundedList(n, items)
  }

  /** `View for List<T>`, `build`: the whole iterator goes to the linked-list product, all of it mounted. */
  method Build<V>(l: List<V>) returns (p: Unbounded.ListProduct<V>)
    requires l.List?
    ensures p.Valid() && fresh(p.list) && fresh(p.list.Repr)
    ensures p.mounted == |l.items| && Applied([], p.list.Contents, l.items)
  {
    p := new Unbounded.ListProduct(l.items);
  }

  /** `View for List<T>`, `update`: the whole iterator goes to the product's `update`. */
  method Update<V>(l: List<V>, p: Unbounded.ListProduct<V>)
    requires l.List? && p.Valid()
    modifies p, p.list.Repr
    ensures p.Valid() && p.mounted == |l.items|
    ensures Applied(old(p.list.Contents), p.list.Contents, l.items)
  {
    p.Update(l.items);
  }

  /** `View for List<T, Bounded<N>>`, `build`: the iterator goes to a product of capacity `N`. */
  method BuildBounded<V>(l: List<V>) returns (p: Bounded.BoundedProduct<V>)
    requires l.BoundedList?
    ensures p.Valid() && p.Capacity() == l.n
    ensures p.mounted == Bounded.Min(|l.items|, l.n)
    ensures Applied([], p.list.Contents, l.items[..p.mounted])
  {
    p := new Bounded.BoundedProduct(l.n, l.items);
  }

  /** `View for List<T, Bounded<N>>`, `update`: the iterator goes to the product's `update`. */
  method UpdateBounded<V>(l: List<V>, p: Bounded.BoundedProduct<V>)
    requires l.BoundedList? && p.Valid() && p.Capacity() == l.n
    modifies p, p.list, p.list.data
    ensures p.Valid() && p.mounted == Bounded.Min(|l.items|, l.n)
    ensures Applied(old(p.list.Contents), p.list.Contents, l.items[..p.mounted])
  {
    p.Update(l.items);
  }

  /** `View for Vec<V>` and for `&[V]`, `build`: rendered as an unbounded list of its elements. */
  method BuildVec<V>(vs: seq<V>) returns (p: Unbounded.ListProduct<V>)
    ensures p.Valid() && fresh(p.list)
    ensures p.mounted == |vs| && Applied([], p.list.Contents, vs)
  {
    p := Build(New(vs));
  }

  /** `View for Vec<V>` and for `&[V]`, `update`: as an unbounded list of its elements. */
  method UpdateVec<V>(vs: seq<V>, p: Unbounded.ListProduct<V>)
    requires p.Valid()
    modifies p, p.list.Repr
    ensures p.Valid() && p.mounted == |vs|
    ensures Applied(old(p.list.Contents), p.list.Contents, vs)
  {
    Update(New(vs), p);
  }

  /**
   * `View for [V; N]`, `build`: a bounded list whose capacity is the array's
   * length, so no element is ever dropped.
   */
  method BuildArray<V>(vs: seq<V>) returns (p: Bounded.BoundedProduct<V>)
    ensures p.Valid() && p.Capacity() == |vs|
    ensures p.mounted == |vs| && Applied([], p.list.Contents, vs)
  {
    p := BuildBounded(NewBounded(|vs|, vs));
    assert vs[..p.mounted] == vs;
  }

  /** `View for [V; N]`, `update`: an array of the same length updates every stored product. */
  method UpdateArray<V>(vs: seq<V>, p: Bounded.BoundedProduct<V>)
    requires p.Valid() && p.Capacity() == |vs|
    modifies p, p.list, p.list.data
    ensures p.Valid() && p.mounted == |vs|
    ensures Applied(old(p.list.Contents), p.list.Contents, vs)
  {
    UpdateBounded(NewBounded(|vs|, vs), p);
    assert vs[..p.mounted] == vs;
  }

  /** The `use` keyword: the value is applied on every render. */
  function Use<T>(value: T): (w: NoDiff<T>)
    ensures DiffNoDiff(w) && w.value == value
  {
    Eager(value)
  }

  /** The `static` keyword: the value is applied when built and never again. */
  function Static<T>(value: T): (w: NoDiff<T>)
    ensures !DiffNoDiff(w) && w.value == value
  {
    NoDiff.Static(value)
  }
}
