/** The slab allocator: pools of byte regions by size, with everything below 4096 served by the smallest. */
module SlabPool {

  const BMAX := 524288
  const SLABS := 7

  function SlabSize(i: nat): nat
    requires i < SLABS
  {
    if i == 0 then 2048 else if i == 1 then 4096 else if i == 2 then 8192 else if i == 3 then 16384
    else if i == 4 then 32768 else if i == 5 then 65536 else 524288
  }

  datatype Slot = NoSlab | Slab(i: nat)

  function SlabOf(size: int): (s: Slot)
    ensures s.Slab? ==> s.i < SLABS
  {
    if size > BMAX then NoSlab
    else if size >= 524288 then Slab(6)
    else if size >= 65536 then Slab(5)
    else if size >= 32768 then Slab(4)
    else if size >= 16384 then Slab(3)
    else if size >= 8192 then Slab(2)
    else if size >= 4096 then Slab(1)
    else Slab(0)
  }

  /** The regions waiting in each pool, by capacity. */
  type Pools = seq<multiset<nat>>

  predicate Shaped(ps: Pools) {
    |ps| == SLABS
  }

  /** Every pool only holds regions at least as large as its slab. */
  ghost predicate Stocked(ps: Pools) {
    Shaped(ps) && forall i, c :: 0 <= i < SLABS && c in ps[i] ==> c >= SlabSize(i)
  }

  datatype Event = Alloc(size: nat, pooled: bool, cap: nat) | Recycle(cap: nat)

  /** The capacity handed out: a waiting region if the pool gives one, else a new one. */
  function Handed(ps: Pools, size: nat, pooled: bool, cap: nat): nat
    requires Shaped(ps)
  {
    match SlabOf(size)
    case NoSlab => size
    case Slab(i) => if pooled && cap in ps[i] then cap else SlabSize(i)
  }

  function Step(ps: Pools, e: Event): (r: Pools)
    requires Shaped(ps)
    ensures Shaped(r)
  {
    match e
    case Alloc(size, pooled, cap) =>
      (match SlabOf(size)
       case NoSlab => ps
       case Slab(i) => if pooled && cap in ps[i] then ps[i := ps[i] - multiset{cap}] else ps)
    case Recycle(cap) =>
      (match SlabOf(cap)
       case NoSlab => ps
       case Slab(i) => ps[i := ps[i] + multiset{cap}])
  }

  function Run(es: seq<Event>): (r: Pools)
    ensures Shaped(r)
  {
    if es == [] then seq(SLABS, _ => multiset{}) else Step(Run(es[..|es| - 1]), es[|es| - 1])
  }

  lemma SlabIsFloor(size: nat)
    ensures SlabOf(size).Slab? <==> size <= BMAX
    ensures SlabOf(size).Slab? && size >= 2048 ==> SlabSize(SlabOf(size).i) <= size
    ensures SlabOf(size).Slab? && SlabOf(size).i < SLABS - 1 ==> size < SlabSize(SlabOf(size).i + 1)
  {
  }

  /** Recycling keeps the pools stocked exactly when the region is not smaller than the smallest slab. */
  lemma RecycleKeepsIff(ps: Pools, cap: nat)
    requires Stocked(ps)
    ensures Stocked(Step(ps, Recycle(cap))) <==> cap >= 2048
  {
    var s := SlabOf(cap);
    SlabIsFloor(cap);
    if cap < 2048 {
      assert cap in Step(ps, Recycle(cap))[0];
    }
  }

  /** Taking a region never hurts. */
  lemma AllocKeeps(ps: Pools, size: nat, pooled: bool, cap: nat)
    requires Stocked(ps)
    ensures Stocked(Step(ps, Alloc(size, pooled, cap)))
  {
  }

  predicate Proper(es: seq<Event>) {
    forall i :: 0 <= i < |es| && es[i].Recycle? ==> es[i].cap >= 2048
  }

  lemma {:induction false} EveryRunStocked(es: seq<Event>)
    requires Proper(es)
    ensures Stocked(Run(es))
  {
    if es != [] {
      var e := es[|es| - 1];
      EveryRunStocked(es[..|es| - 1]);
      match e {
        case Alloc(size, pooled, cap) => AllocKeeps(Run(es[..|es| - 1]), size, pooled, cap);
        case Recycle(cap) => RecycleKeepsIff(Run(es[..|es| - 1]), cap);
      }
    }
  }

  /** The size every region for a request is sure to have. */
  function Floor(size: nat): nat {
    match SlabOf(size) case NoSlab => size case Slab(i) => SlabSize(i)
  }

  /** In every run, a request is served with at least its floor. */
  lemma ServedFloor(es: seq<Event>, size: nat, pooled: bool, cap: nat)
    requires Proper(es)
    ensures Handed(Run(es), size, pooled, cap) >= Floor(size)
  {
    EveryRunStocked(es);
  }

  /** Sizes for which the region is sure to be as large as asked. */
  predicate Exact(size: nat) {
    size <= 2048 || size > BMAX || exists i :: 0 <= i < SLABS && SlabSize(i) == size
  }

  lemma FloorCovers(size: nat)
    ensures Floor(size) >= size <==> Exact(size)
  {
    if size <= BMAX {
      SlabIsFloor(size);
      assert SlabSize(0) == 2048 && SlabSize(1) == 4096 && SlabSize(2) == 8192 && SlabSize(3) == 16384;
      assert SlabSize(4) == 32768 && SlabSize(5) == 65536 && SlabSize(6) == 524288;
    }
  }

  lemma ShortAtFirst(size: nat, es: seq<Event>, pooled: bool, cap: nat)
    requires es == [] && !pooled && Floor(size) < size
    ensures Proper(es) && Handed(Run(es), size, pooled, cap) < size
  {
  }

  /** A request gets a region of its size in every run if and only if its size is exact. */
  lemma ServedFullyIff(size: nat)
    ensures (forall es, pooled, cap :: Proper(es) ==> Handed(Run(es), size, pooled, cap) >= size) <==> Exact(size)
  {
    FloorCovers(size);
    if Exact(size) {
      forall es, pooled, cap | Proper(es)
        ensures Handed(Run(es), size, pooled, cap) >= size
      {
        ServedFloor(es, size, pooled, cap);
      }
    } else {
      ShortAtFirst(size, [], false, 0);
    }
  }

  /** The pools as they are used: regions taken and put back one at a time. */
  class Allocator {
    var pools: Pools

    ghost predicate Valid()
      reads this
    {
      Stocked(pools)
    }

    constructor ()
      ensures Valid() && pools == Run([])
    {
      pools := seq(SLABS, _ => multiset{});
    }

    /** AllocRegion: `pooled` and `cap` say what the pool has to offer. */
    method AllocRegion(size: nat, pooled: bool, cap: nat) returns (got: nat)
      requires Valid()
      modifies this
      ensures Valid() && pools == Step(old(pools), Alloc(size, pooled, cap))
      ensures got == Handed(old(pools), size, pooled, cap) >= Floor(size)
      ensures Exact(size) ==> got >= size
    {
      FloorCovers(size);
      var slab := SlabOf(size);
      if slab.Slab? {
        if pooled && cap in pools[slab.i] {
          pools := pools[slab.i := pools[slab.i] - multiset{cap}];
          return cap;
        }
        return SlabSize(slab.i);
      }
      return size;
    }

    /** Recycle: reports whether the region was kept. */
    method Recycle(cap: nat) returns (kept: bool)
      requires Valid() && cap >= 2048
      modifies this
      ensures Valid() && pools == Step(old(pools), Event.Recycle(cap))
      ensures kept <==> cap <= BMAX
    {
      RecycleKeepsIff(pools, cap);
      var slab := SlabOf(cap);
      if slab.Slab? {
        pools := pools[slab.i := pools[slab.i] + multiset{cap}];
        return true;
      }
      return false;
    }
  }
}
