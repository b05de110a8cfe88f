/** The splitter on regions from the slab allocator. */
module TlsRegion {
  import opened Common
  import opened TlsRecords
  import opened TlsSplit
  import SlabPool

  /** The pair of records sent from the region that the allocator hands out for this hello. */
  function SentFrom(hello: seq<byte>, draw: nat, es: seq<SlabPool.Event>, pooled: bool, cap: nat): seq<byte>
    requires Fragments(hello, draw)
  {
    First(hello, draw) + Second(hello, draw, SlabPool.Handed(SlabPool.Run(es), |hello|, pooled, cap))
  }

  lemma FloorIsRoomy(hello: seq<byte>, draw: nat)
    requires draw <= 58 && Fragments(hello, draw)
    ensures SlabPool.Floor(|hello|) >= SplitLen(|hello|, draw)
  {
  }

  /** One allocation: the meaning survives exactly when the region handed out is large enough. */
  lemma RegionDecides(hello: seq<byte>, draw: nat, es: seq<SlabPool.Event>, pooled: bool, cap: nat)
    requires draw <= 58 && Fragments(hello, draw) && SlabPool.Proper(es)
    ensures MeaningOf(SentFrom(hello, draw, es, pooled, cap)) == MeaningOf(hello) <==>
            SlabPool.Handed(SlabPool.Run(es), |hello|, pooled, cap) >= Needed(hello, draw)
  {
    SlabPool.ServedFloor(es, |hello|, pooled, cap);
    FloorIsRoomy(hello, draw);
    MeaningKeptIff(hello, draw, SlabPool.Handed(SlabPool.Run(es), |hello|, pooled, cap));
  }

  /** Fragmentation is safe after every run of the allocator if and only if the slab covers the second record. */
  lemma SafeInEveryRunIff(hello: seq<byte>, draw: nat)
    requires draw <= 58 && Fragments(hello, draw)
    ensures (forall es, pooled, cap :: SlabPool.Proper(es) ==>
               MeaningOf(SentFrom(hello, draw, es, pooled, cap)) == MeaningOf(hello)) <==>
            Needed(hello, draw) <= SlabPool.Floor(|hello|)
  {
    if Needed(hello, draw) <= SlabPool.Floor(|hello|) {
      forall es, pooled, cap | SlabPool.Proper(es)
        ensures MeaningOf(SentFrom(hello, draw, es, pooled, cap)) == MeaningOf(hello)
      {
        SlabPool.ServedFloor(es, |hello|, pooled, cap);
        RegionDecides(hello, draw, es, pooled, cap);
      }
    } else {
      var none: seq<SlabPool.Event> := [];
      assert SlabPool.Proper(none);
      RegionDecides(hello, draw, none, false, 0);
    }
  }

  /** Every hello of at most 2048 bytes, and every hello of an exact size, is fragmented safely. */
  lemma SafeWhenExact(hello: seq<byte>, draw: nat)
    requires draw <= 58 && Fragments(hello, draw) && SlabPool.Exact(|hello|)
    ensures Needed(hello, draw) <= SlabPool.Floor(|hello|)
  {
    SlabPool.FloorCovers(|hello|);
  }

  function LongHello(): seq<byte> {
    [22, 3, 1, 11, 179] + seq(2995, _ => 0)
  }

  /** A 3000-byte hello loses its tail in a 2048-byte region. */
  lemma LongHelloIsCut()
    ensures Fragments(LongHello(), 0)
    ensures MeaningOf(SentFrom(LongHello(), 0, [], false, 0)) != MeaningOf(LongHello())
  {
    assert Be16(11, 179) == 2995;
    var none: seq<SlabPool.Event> := [];
    RegionDecides(LongHello(), 0, none, false, 0);
  }
}
