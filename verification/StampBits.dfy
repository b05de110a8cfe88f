/** Counting and locating the set positions of a row of flags. */
module Ranks {

  /** The positions of the set flags below `j`, in order. */
  function Tags(b: seq<bool>, j: nat): seq<nat>
    requires j <= |b|
  {
    if j == 0 then [] else Tags(b, j - 1) + (if b[j - 1] then [j - 1] else [])
  }

  function Rank(b: seq<bool>, j: nat): nat
    requires j <= |b|
  {
    |Tags(b, j)|
  }

  lemma {:induction false} TagsGrow(b: seq<bool>, j: nat, k: nat)
    requires j <= k <= |b|
    ensures Tags(b, j) <= Tags(b, k)
  {
    if j < k {
      TagsGrow(b, j, k - 1);
    }
  }

  lemma {:induction false} TagsAscend(b: seq<bool>, j: nat)
    requires j <= |b|
    ensures forall i :: 0 <= i < |Tags(b, j)| ==> Tags(b, j)[i] < j
    ensures forall i, k :: 0 <= i < k < |Tags(b, j)| ==> Tags(b, j)[i] < Tags(b, j)[k]
  {
    if j > 0 {
      TagsAscend(b, j - 1);
    }
  }

  /** A set position is found again at its rank. */
  lemma TagAtRank(b: seq<bool>, g: nat, j: nat)
    requires g < j <= |b| && b[g]
    ensures Rank(b, g) < Rank(b, j) && Tags(b, j)[Rank(b, g)] == g
  {
    TagsGrow(b, g + 1, j);
    assert Tags(b, g + 1)[Rank(b, g)] == g;
  }

  lemma {:induction false} RankOfTag(b: seq<bool>, j: nat, i: nat)
    requires j <= |b| && i < Rank(b, j)
    ensures Tags(b, j)[i] < j && Rank(b, Tags(b, j)[i]) == i && b[Tags(b, j)[i]]
  {
    if i < Rank(b, j - 1) {
      RankOfTag(b, j - 1, i);
    }
  }

  lemma {:induction false} RankWith(b: seq<bool>, g: nat, k: nat)
    requires g < |b| && k <= |b| && !b[g]
    ensures Rank(b[g := true], k) == Rank(b, k) + if k > g then 1 else 0
  {
    if k > 0 {
      RankWith(b, g, k - 1);
    }
  }

  lemma {:induction false} SamePrefix(b: seq<bool>, c: seq<bool>, j: nat)
    requires j <= |b| && j <= |c| && b[..j] == c[..j]
    ensures Tags(b, j) == Tags(c, j)
  {
    if j > 0 {
      assert b[..j - 1] == b[..j][..j - 1] && c[..j - 1] == c[..j][..j - 1];
      assert b[j - 1] == b[..j][j - 1] && c[j - 1] == c[..j][j - 1];
      SamePrefix(b, c, j - 1);
    }
  }

  lemma {:induction false} NoneAbove(b: seq<bool>, g: nat, j: nat)
    requires g <= j <= |b| && forall k :: g <= k < j ==> !b[k]
    ensures Tags(b, j) == Tags(b, g)
  {
    if g < j {
      NoneAbove(b, g, j - 1);
    }
  }

  lemma {:induction false} RankSplits(b: seq<bool>, lo: seq<bool>, hi: seq<bool>, j: nat)
    requires |b| == |lo| + |hi| && b == lo + hi && |lo| <= j <= |b|
    ensures Rank(b, j) == Rank(lo, |lo|) + Rank(hi, j - |lo|)
  {
    if j == |lo| {
      assert b[..j] == lo == lo[..j];
      SamePrefix(b, lo, j);
    } else {
      RankSplits(b, lo, hi, j - 1);
    }
  }
}

/** 16-bit words read from the most significant bit down. */
module StampBits {
  import opened Ranks

  /** The mask the reader starts from, shifted down `j` times. */
  function Mask(j: nat): bv16 {
    if j == 0 then 0x8000 else Mask(j - 1) >> 1
  }

  function Row(j: nat): bv16 {
    if j == 0 then 0x8000 else if j == 1 then 0x4000 else if j == 2 then 0x2000 else if j == 3 then 0x1000
    else if j == 4 then 0x0800 else if j == 5 then 0x0400 else if j == 6 then 0x0200 else if j == 7 then 0x0100
    else if j == 8 then 0x0080 else if j == 9 then 0x0040 else if j == 10 then 0x0020 else if j == 11 then 0x0010
    else if j == 12 then 0x0008 else if j == 13 then 0x0004 else if j == 14 then 0x0002 else 0x0001
  }

  lemma RowShifts(j: nat)
    requires j < 15
    ensures Row(j) >> 1 == Row(j + 1)
  {
  }

  lemma {:induction false} MaskRow(j: nat)
    requires j < 16
    ensures Mask(j) == Row(j)
  {
    if j > 0 {
      MaskRow(j - 1);
      RowShifts(j - 1);
    }
  }

  predicate In(w: bv16, m: bv16) {
    w & m == m
  }

  function Bits(w: bv16): (r: seq<bool>)
    ensures |r| == 16
  {
    seq(16, j requires 0 <= j < 16 => In(w, Mask(j)))
  }

  lemma RowIsShift(j: nat)
    requires j < 16
    ensures (1 as bv16) << (15 - j) == Row(j)
  {
  }

  /** The reader's mask is the writer's: `1 << (15 - j)`. */
  lemma MaskIsShift(j: nat)
    requires j < 16
    ensures (1 as bv16) << (15 - j) == Mask(j)
  {
    MaskRow(j);
    RowIsShift(j);
  }

  predicate Single(m: bv16) {
    m != 0 && m & (m - 1) == 0
  }

  lemma RowSingle(j: nat)
    ensures Single(Row(j))
  {
  }

  lemma RowsDisjoint(j: nat, k: nat)
    requires j < 16 && k < 16 && j != k
    ensures Row(j) & Row(k) == 0
  {
  }

  lemma MaskSingle(j: nat)
    requires j < 16
    ensures Single(Mask(j))
  {
    MaskRow(j);
    RowSingle(j);
  }

  lemma MasksDisjoint(j: nat, k: nat)
    requires j < 16 && k < 16 && j != k
    ensures Mask(j) & Mask(k) == 0
  {
    MaskRow(j);
    MaskRow(k);
    RowsDisjoint(j, k);
  }

  lemma OrSets(w: bv16, m: bv16)
    ensures In(w | m, m)
  {
  }

  lemma OrKeeps(w: bv16, m: bv16, n: bv16)
    requires m & n == 0
    ensures In(w | m, n) == In(w, n)
  {
    assert (w | m) & n == w & n;
  }

  lemma InAnd(a: bv16, b: bv16, m: bv16)
    requires Single(m)
    ensures In(a & b, m) == (In(a, m) && In(b, m))
  {
  }

  lemma OrAt(w: bv16, n: bv16, m: bv16, same: bool)
    requires same ==> n == m
    requires !same ==> n & m == 0
    ensures In(w | n, m) == (In(w, m) || same)
  {
    if same {
      OrSets(w, m);
    } else {
      OrKeeps(w, n, m);
    }
  }

  lemma SetAt(w: bv16, j: nat, n: bv16, k: nat, m: bv16)
    requires j < 16 && k < 16 && n == Mask(j) && m == Mask(k)
    ensures In(w | n, m) == (In(w, m) || j == k)
  {
    var same := j == k;
    if !same {
      MasksDisjoint(j, k);
    }
    OrAt(w, n, m, same);
  }

  /** Setting one bit changes that bit and no other. */
  lemma SetBit(w: bv16, j: nat, n: bv16, x: bv16)
    requires j < 16 && n == Mask(j) && x == w | n
    ensures Bits(x) == Bits(w)[j := true]
  {
    var b, c := Bits(x), Bits(w)[j := true];
    forall k | 0 <= k < 16
      ensures b[k] == c[k]
    {
      SetAt(w, j, n, k, Mask(k));
    }
  }

  lemma ZeroBits(k: nat)
    requires k < 16
    ensures !Bits(0)[k]
  {
    MaskSingle(k);
  }

  lemma ShiftTests(h: bv16, s: nat, m: bv16)
    requires s < 16 && m == (1 as bv16) << s
    ensures (h >> s) & 1 == 1 <==> In(h, m)
  {
  }

  lemma DataBit(h: bv16, j: nat, m: bv16)
    requires j < 16 && m == Mask(j)
    ensures (h >> (15 - j)) & 1 == 1 <==> Bits(h)[j]
  {
    MaskIsShift(j);
    ShiftTests(h, 15 - j, m);
  }

  lemma ShiftedOut(w: bv16, j: nat, k: nat)
    requires j <= k < 16 && w << j == 0
    ensures !Bits(w)[k]
  {
    ShiftedOutMask(w, j, k);
  }

  lemma ShiftedOutMask(w: bv16, j: nat, k: nat)
    requires j <= k < 16 && w << j == 0
    ensures !In(w, Mask(k))
  {
    MaskRow(k);
    ShiftedOutRow(w, j, k);
  }

  lemma ShiftedOutRow(w: bv16, j: nat, k: nat)
    requires j <= k < 16 && w << j == 0
    ensures !In(w, Row(k))
  {
  }

  lemma SameWord(a: bv16, b: bv16)
    requires Bits(a) == Bits(b)
    ensures a == b
  {
    SameHighBits(a, b);
    SameLowBits(a, b);
    HalvesJoin(a, b);
  }

  lemma SameHighBits(a: bv16, b: bv16)
    requires Bits(a) == Bits(b)
    ensures a & 0xff00 == b & 0xff00
  {
    MaskRow(0);
    SameMask(a, b, 0, 0x8000);
    MaskRow(1);
    SameMask(a, b, 1, 0x4000);
    MaskRow(2);
    SameMask(a, b, 2, 0x2000);
    MaskRow(3);
    SameMask(a, b, 3, 0x1000);
    MaskRow(4);
    SameMask(a, b, 4, 0x0800);
    MaskRow(5);
    SameMask(a, b, 5, 0x0400);
    MaskRow(6);
    SameMask(a, b, 6, 0x0200);
    MaskRow(7);
    SameMask(a, b, 7, 0x0100);
    SameHigh(a, b);
  }

  lemma SameLowBits(a: bv16, b: bv16)
    requires Bits(a) == Bits(b)
    ensures a & 0x00ff == b & 0x00ff
  {
    MaskRow(8);
    SameMask(a, b, 8, 0x0080);
    MaskRow(9);
    SameMask(a, b, 9, 0x0040);
    MaskRow(10);
    SameMask(a, b, 10, 0x0020);
    MaskRow(11);
    SameMask(a, b, 11, 0x0010);
    MaskRow(12);
    SameMask(a, b, 12, 0x0008);
    MaskRow(13);
    SameMask(a, b, 13, 0x0004);
    MaskRow(14);
    SameMask(a, b, 14, 0x0002);
    MaskRow(15);
    SameMask(a, b, 15, 0x0001);
    SameLow(a, b);
  }

  lemma SameMask(a: bv16, b: bv16, j: nat, m: bv16)
    requires Bits(a) == Bits(b) && j < 16 && m == Mask(j)
    ensures In(a, m) == In(b, m)
  {
    assert Bits(a)[j] == Bits(b)[j];
  }

  lemma SameHigh(a: bv16, b: bv16)
    requires In(a, 0x8000) == In(b, 0x8000) && In(a, 0x4000) == In(b, 0x4000)
    requires In(a, 0x2000) == In(b, 0x2000) && In(a, 0x1000) == In(b, 0x1000)
    requires In(a, 0x0800) == In(b, 0x0800) && In(a, 0x0400) == In(b, 0x0400)
    requires In(a, 0x0200) == In(b, 0x0200) && In(a, 0x0100) == In(b, 0x0100)
    ensures a & 0xff00 == b & 0xff00
  {
  }

  lemma SameLow(a: bv16, b: bv16)
    requires In(a, 0x0080) == In(b, 0x0080) && In(a, 0x0040) == In(b, 0x0040)
    requires In(a, 0x0020) == In(b, 0x0020) && In(a, 0x0010) == In(b, 0x0010)
    requires In(a, 0x0008) == In(b, 0x0008) && In(a, 0x0004) == In(b, 0x0004)
    requires In(a, 0x0002) == In(b, 0x0002) && In(a, 0x0001) == In(b, 0x0001)
    ensures a & 0x00ff == b & 0x00ff
  {
  }

  lemma HalvesJoin(a: bv16, b: bv16)
    requires a & 0xff00 == b & 0xff00 && a & 0x00ff == b & 0x00ff
    ensures a == b
  {
  }

  // ---- Counting --------------------------------------------------------------------------------

  /** The byte table of the trie package: the number of set bits among the low eight. */
  function Table(b: bv16): nat {
    Rank(Bits(b)[8..], 8)
  }

  function CountSetBits(n: bv16): nat {
    Table(n & 0xff) + Table((n >> 8) & 0xff)
  }

  lemma LowMask(n: bv16, k: nat)
    requires 8 <= k < 16
    ensures In(n & 0xff, Mask(k)) == In(n, Mask(k))
  {
    MaskRow(k);
    LowRow(n, k);
  }

  lemma LowRow(n: bv16, k: nat)
    requires 8 <= k < 16
    ensures In(n & 0xff, Row(k)) == In(n, Row(k))
  {
  }

  lemma HighMask(n: bv16, k: nat)
    requires k < 8
    ensures In((n >> 8) & 0xff, Mask(k + 8)) == In(n, Mask(k))
  {
    MaskRow(k);
    MaskRow(k + 8);
    HighRow(n, k);
  }

  lemma HighRow(n: bv16, k: nat)
    requires k < 8
    ensures In((n >> 8) & 0xff, Row(k + 8)) == In(n, Row(k))
  {
  }

  /** The two table look-ups count the set bits of the word. */
  lemma CountIsRank(n: bv16)
    ensures CountSetBits(n) == Rank(Bits(n), 16)
  {
    var b, lo, hi := Bits(n), Bits(n & 0xff)[8..], Bits((n >> 8) & 0xff)[8..];
    forall k | 0 <= k < 8
      ensures b[k] == hi[k] && b[k + 8] == lo[k]
    {
      LowMask(n, k + 8);
      HighMask(n, k);
    }
    assert b == hi + lo;
    RankSplits(b, hi, lo, 16);
  }

  /** The mask that keeps the `16 - m` most significant bits. */
  function MaskLo(m: nat): bv16
    requires m <= 16
  {
    ((0xffff as bv16) << m) & 0xffff
  }

  lemma OnesKeep(m: nat, s: nat)
    requires m <= 16 && s < 16
    ensures In(MaskLo(m), (1 as bv16) << s) <==> s >= m
  {
    if m < 16 {
      OnesShift(m as bv16, s as bv16);
    }
  }

  lemma OnesShift(m: bv16, s: bv16)
    requires m < 16 && s < 16
    ensures In((0xffff as bv16) << m, (1 as bv16) << s) <==> s >= m
  {
  }

  lemma MaskedAt(h: bv16, g: nat, lo: bv16, k: nat, m: bv16)
    requires g < 16 && k < 16 && lo == MaskLo(16 - g) && m == Mask(k)
    ensures In(h & lo, m) <==> In(h, m) && k < g
  {
    OnesKeep(16 - g, 15 - k);
    MaskIsShift(k);
    MaskSingle(k);
    InAnd(h, lo, m);
  }

  lemma MaskedBits(h: bv16, g: nat, lo: bv16, w: bv16)
    requires g < 16 && lo == MaskLo(16 - g) && w == h & lo
    ensures forall k :: 0 <= k < 16 ==> Bits(w)[k] == (Bits(h)[k] && k < g)
  {
    forall k | 0 <= k < 16
      ensures Bits(w)[k] == (Bits(h)[k] && k < g)
    {
      MaskedAt(h, g, lo, k, Mask(k));
    }
  }

  lemma RankBelow(b: seq<bool>, c: seq<bool>, g: nat)
    requires |b| == |c| && g <= |b| && forall k :: 0 <= k < |b| ==> c[k] == (b[k] && k < g)
    ensures Rank(c, |c|) == Rank(b, g)
  {
    NoneAbove(c, g, |c|);
    assert c[..g] == b[..g];
    SamePrefix(c, b, g);
  }

  /** The masked count is the number of set bits before position `g`. */
  lemma MaskedCount(h: bv16, g: nat, lo: bv16, w: bv16)
    requires g < 16 && lo == MaskLo(16 - g) && w == h & lo
    ensures CountSetBits(w) == Rank(Bits(h), g)
  {
    CountIsRank(w);
    MaskedBits(h, g, lo, w);
    RankBelow(Bits(h), Bits(w), g);
  }
}
