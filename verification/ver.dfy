/**
 * `Ver<T>`: a value paired with a version drawn from a thread-wide counter.
 * Every mutable access draws a new version, so diffing the version stands in
 * for diffing the value.  `usize` is 32 bits wide on the WebAssembly target.
 */
module Version {
  import opened Diff

  const USIZE: nat := 0x1_0000_0000

  /** The thread-local `VER` counter: the next version to hand out. */
  class Clock {
    var ver: nat

    ghost predicate Valid()
      reads this
    {
      ver < USIZE
    }

    constructor ()
      ensures Valid() && ver == 0
    {
      ver := 0;
    }

    /** `next_ver`: the current count, the counter moving on by a wrapping add of 1. */
    method Next() returns (v: nat)
      requires Valid()
      modifies this
      ensures Valid() && v == old(ver) && ver == Drawn(old(ver), 1)
    {
      v := ver;
      ver := (ver + 1) % USIZE;
    }
  }

  /** The count `k` draws after the counter stood at `start`. */
  function Drawn(start: nat, k: nat): (v: nat)
    ensures v < USIZE
  {
    (start + k) % USIZE
  }

  /** One more draw moves the count on by one. */
  lemma DrawnNext(start: nat, k: nat)
    ensures Drawn(Drawn(start, k), 1) == Drawn(start, k + 1)
  {
    var a := start + k;
    assert a == (a / USIZE) * USIZE + a % USIZE;
    if a % USIZE + 1 == USIZE {
      assert a + 1 == (a / USIZE + 1) * USIZE;
    } else {
      assert a + 1 == (a / USIZE) * USIZE + (a % USIZE + 1);
    }
  }

  /** Fewer than 2^32 draws apart, two versions differ. */
  lemma DrawnDistinct(start: nat, i: nat, j: nat)
    requires i < j < i + USIZE
    ensures Drawn(start, i) != Drawn(start, j)
  {
  }

  /** Exactly 2^32 draws apart, the wrapping add hands out the same version again. */
  lemma DrawnWraps(start: nat, i: nat)
    ensures Drawn(start, i + USIZE) == Drawn(start, i)
  {
    var a := start + i;
    assert a + USIZE == (a / USIZE + 1) * USIZE + a % USIZE;
  }

  class Ver<T(==)> {
    var inner: T
    var ver: nat

    /** `Ver::new`: the value with a freshly drawn version. */
    constructor (val: T, clock: Clock)
      requires clock.Valid()
      modifies clock
      ensures inner == val && ver == old(clock.ver)
      ensures clock.Valid() && clock.ver == Drawn(old(clock.ver), 1)
    {
      inner := val;
      new;
      ver := clock.Next();
    }

    /** `Deref`: the value; the version is only read by `diff`. */
    function Deref(): (v: T)
      reads this
      ensures v == inner
    {
      inner
    }

    /**
     * `DerefMut`, followed by the caller's write through the reference: a
     * new version is drawn first, then the value is changed.
     */
    method Modify(clock: Clock, write: T -> T)
      requires clock.Valid()
      modifies this, clock
      ensures ver == old(clock.ver) && inner == write(old(inner))
      ensures clock.Valid() && clock.ver == Drawn(old(clock.ver), 1)
    {
      ver := clock.Next();
      inner := write(inner);
    }

    /** `PartialEq`: only the value is compared, never the version. */
    function Eq(other: T): (r: bool)
      reads this
      ensures r <==> inner == other
    {
      inner == other
    }

    /** `Hash`: only the value is hashed. */
    function Hash(hash: T -> int): (h: int)
      reads this
      ensures h == hash(inner)
    {
      hash(inner)
    }

    /** `diff` for `&Ver<T>`: the version is the memo; changed exactly when it moved. */
    method Diff(memo: Memo<nat>) returns (changed: bool)
      modifies memo
      ensures changed <==> ver != old(memo.value)
      ensures memo.value == ver
    {
      changed := DiffValue(ver, memo);
    }

    /** `fence`: a `Fence` guarded by the current version. */
    method Fence<P>(built: P) returns (f: FenceProduct<nat, P>)
      ensures fresh(f) && fresh(f.guard) && f.guard.value == ver && f.inner == built
    {
      f := new FenceProduct(ver, built);
    }
  }

  /** `write_str` on a `Ver<String>`: a new version is drawn, then the text is appended. */
  method WriteStr(v: Ver<string>, clock: Clock, s: string)
    requires clock.Valid()
    modifies v, clock
    ensures v.inner == old(v.inner) + s && v.ver == old(clock.ver)
    ensures clock.Valid() && clock.ver == Drawn(old(clock.ver), 1)
  {
    v.Modify(clock, t => t + s);
  }

  /**
   * A fence over a fresh `Ver` lets the first mutation through: the version
   * it draws is the next one, which differs from the memo.
   */
  method MutationSeen<T(==)>(clock: Clock, x: T, write: T -> T) returns (changed: bool)
    requires clock.Valid()
    modifies clock
    ensures changed
  {
    var v := new Ver(x, clock);
    var memo := new Memo(v.ver);
    ghost var start := v.ver;
    v.Modify(clock, write);
    DrawnDistinct(start, 0, 1);
    assert start == Drawn(start, 0);
    changed := v.Diff(memo);
  }
}
