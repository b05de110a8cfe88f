/** Packing and unpacking stamps on 16-bit words, with the loops and bit tests of the program. */
module StampCodec {
  import opened Slices
  import opened Ranks
  import opened StampBits
  import opened Stamp

  function RowsOf(ws: seq<bv16>): (rows: Rows)
    ensures |rows| == |ws| && forall i :: 0 <= i < |rows| ==> |rows[i]| == 16
  {
    seq(|ws|, i requires 0 <= i < |ws| => Bits(ws[i]))
  }

  lemma {:induction false} SameWords(a: seq<bv16>, b: seq<bv16>)
    requires RowsOf(a) == RowsOf(b)
    ensures a == b
  {
    assert |RowsOf(a)| == |RowsOf(b)|;
    forall i | 0 <= i < |a|
      ensures a[i] == b[i]
    {
      assert RowsOf(a)[i] == RowsOf(b)[i];
      SameWord(a[i], b[i]);
    }
  }

  /** Equal sets of ids have equal stamps, word for word. */
  lemma StampOfSet(a: seq<bv16>, b: seq<bv16>, s: set<nat>)
    requires Stamped(RowsOf(a), s) && Stamped(RowsOf(b), s)
    ensures a == b
  {
    Canonical(RowsOf(a), RowsOf(b), s);
    SameWords(a, b);
  }

  method OrBit(w: bv16, j: nat) returns (x: bv16)
    requires j < 16
    ensures Bits(x) == Bits(w)[j := true]
  {
    MaskIsShift(j);
    x := w | (1 << (15 - j));
    SetBit(w, j, Mask(j), x);
  }

  method TestBit(h: bv16, j: nat) returns (found: bool)
    requires j < 16
    ensures found == Bits(h)[j]
  {
    DataBit(h, j, Mask(j));
    var databit := h >> (15 - j);
    found := databit & 0x1 == 1;
  }

  method CountBefore(h: bv16, g: nat) returns (c: nat)
    requires g < 16
    ensures c == Rank(Bits(h), g)
  {
    var hmask := h & MaskLo(16 - g);
    MaskedCount(h, g, MaskLo(16 - g), hmask);
    c := CountSetBits(hmask);
  }

  lemma NoIdsYet()
    ensures Stamped(RowsOf([0]), {})
  {
    forall k: nat | k < 16
      ensures !RowsOf([0])[0][k]
    {
      ZeroBits(k);
    }
    NoneAbove(RowsOf([0])[0], 0, 16);
  }

  lemma UnitOfZero(x: bv16, p: nat)
    requires p < 16 && Bits(x) == Bits(0)[p := true]
    ensures Bits(x) == Unit(p)
  {
    forall k: nat | k < 16
      ensures Bits(0)[k] == false
    {
      ZeroBits(k);
    }
  }

  method PackUpdate(ws: seq<bv16>, d: nat, pos: nat) returns (res: seq<bv16>)
    requires d < |ws| && pos < 16
    ensures RowsOf(res) == RowsOf(ws)[d := RowsOf(ws)[d][pos := true]]
  {
    var n := OrBit(ws[d], pos);
    res := ws[d := n];
  }

  method PackInsert(ws: seq<bv16>, d: nat, hindex: nat, pos: nat) returns (res: seq<bv16>)
    requires 1 <= d <= |ws| && hindex < 16 && pos < 16
    ensures RowsOf(res) == Spliced(RowsOf(ws), d, RowsOf(ws)[0][hindex := true], Unit(pos))
  {
    var h := OrBit(ws[0], hindex);
    var n := OrBit(0, pos);
    UnitOfZero(n, pos);
    res := [h] + ws[1..d] + [n];
    if d < |ws| {
      res := res + ws[d..];
    }
    SplicedRows(ws, d, h, n, res);
  }

  lemma SplicedRows(ws: seq<bv16>, d: nat, h: bv16, n: bv16, res: seq<bv16>)
    requires 1 <= d <= |ws| && res == [h] + ws[1..d] + [n] + ws[d..]
    ensures RowsOf(res) == Spliced(RowsOf(ws), d, Bits(h), Bits(n))
  {
    var a, b := RowsOf(res), Spliced(RowsOf(ws), d, Bits(h), Bits(n));
    forall i | 0 <= i < |a|
      ensures a[i] == b[i]
    {
    }
  }

  /** One id into the words packed so far. */
  method PackOne(ws: seq<bv16>, val: nat) returns (res: seq<bv16>)
    requires val < 256 && ws != [] && |ws| == 1 + Rank(RowsOf(ws)[0], 16)
    ensures RowsOf(res) == Packed(RowsOf(ws), val / 16, val % 16)
  {
    var hindex, pos := val / 16, val % 16;
    ghost var header := RowsOf(ws)[0];
    RankFits(header, hindex);
    if |ws| == 1 {
      res := PackInsert(ws, 1, hindex, pos);
      return;
    }
    var before := CountBefore(ws[0], hindex);
    var datafound := TestBit(ws[0], hindex);
    if datafound {
      res := PackUpdate(ws, before + 1, pos);
    } else {
      res := PackInsert(ws, before + 1, hindex, pos);
    }
  }

  lemma ListedNext(fl: seq<nat>, i: nat)
    requires i < |fl|
    ensures ToSet(fl[..i + 1]) == ToSet(fl[..i]) + {Id(fl[i] / 16, fl[i] % 16)}
  {
    assert fl[..i + 1] == fl[..i] + [fl[i]];
  }

  method PackMore(ws: seq<bv16>, ghost s: set<nat>, val: nat) returns (res: seq<bv16>)
    requires Stamped(RowsOf(ws), s) && val < 256
    ensures Stamped(RowsOf(res), s + {Id(val / 16, val % 16)})
  {
    PackedStamps(RowsOf(ws), s, val / 16, val % 16);
    res := PackOne(ws, val);
  }

  /** The packed words of a list of ids are those of the set of ids listed. */
  method FlagToStamp(fl: seq<nat>) returns (res: seq<bv16>)
    requires forall x :: x in fl ==> x < 256
    ensures Stamped(RowsOf(res), ToSet(fl))
  {
    res := [0];
    NoIdsYet();
    var i := 0;
    while i < |fl|
      invariant i <= |fl|
      invariant Stamped(RowsOf(res), ToSet(fl[..i]))
    {
      assert fl[i] in fl;
      res := PackMore(res, ToSet(fl[..i]), fl[i]);
      ListedNext(fl, i);
      i := i + 1;
    }
    assert fl[..i] == fl;
  }

  // ---- Reading ---------------------------------------------------------------------------------

  method NothingFrom(w: bv16, j: nat) returns (none: bool)
    requires j < 16
    ensures none ==> forall k :: j <= k < 16 ==> !Bits(w)[k]
  {
    none := w << j == 0;
    if none {
      forall k | j <= k < 16
        ensures !Bits(w)[k]
      {
        ShiftedOut(w, j, k);
      }
    }
  }

  method Hits(w: bv16, mask: bv16, ghost j: nat) returns (hit: bool)
    requires j < 16
    ensures mask == Mask(j) ==> hit == Bits(w)[j]
  {
    hit := w & mask == mask;
    assert Bits(w)[j] == In(w, Mask(j));
  }

  method Shifted(mask: bv16, ghost j: nat) returns (next: bv16)
    ensures mask == Mask(j) ==> next == Mask(j + 1)
  {
    next := mask >> 1;
  }

  /** The positions of the header's set bits; stops as soon as nothing is left to the right. */
  method ReadTags(header: bv16) returns (tags: seq<nat>)
    ensures tags == Tags(Bits(header), 16)
  {
    tags := [];
    var mask: bv16 := 0x8000;
    var i: nat := 0;
    while i < 16
      invariant i <= 16 && mask == Mask(i)
      invariant tags == Tags(Bits(header), i)
    {
      var none := NothingFrom(header, i);
      if none {
        NoneAbove(Bits(header), i, 16);
        return;
      }
      var hit := Hits(header, mask, i);
      if hit {
        tags := tags + [i];
      }
      mask := Shifted(mask, i);
      i := i + 1;
    }
  }

  lemma {:induction false} NoIdsAbove(row: seq<bool>, g: nat, n: nat, i: nat, j: nat)
    requires i <= j <= |row| && forall k :: i <= k < j ==> !row[k]
    ensures RowIds(row, g, n, j) == RowIds(row, g, n, i)
  {
    if i < j {
      NoIdsAbove(row, g, n, i, j - 1);
    }
  }

  lemma RowIdsNext(got: seq<nat>, row: seq<bool>, g: nat, n: nat, j: nat)
    requires j < |row|
    ensures row[j] && Id(g, j) < n ==> got + RowIds(row, g, n, j + 1) == got + RowIds(row, g, n, j) + [Id(g, j)]
    ensures !row[j] || Id(g, j) >= n ==> RowIds(row, g, n, j + 1) == RowIds(row, g, n, j)
  {
  }

  /** The ids of one word. An id out of range leaves the mask behind, but every later id is out of range too. */
  method ReadWord(flag: bv16, index: nat, n: nat, got: seq<nat>) returns (values: seq<nat>)
    ensures values == got + RowIds(Bits(flag), index, n, 16)
  {
    values := got;
    ghost var row := Bits(flag);
    var mask: bv16 := 0x8000;
    var j: nat := 0;
    while j < 16
      invariant j <= 16
      invariant values == got + RowIds(row, index, n, j)
      invariant mask == Mask(j) || Id(index, j) >= n
    {
      var none := NothingFrom(flag, j);
      if none {
        NoIdsAbove(row, index, n, j, 16);
        return;
      }
      RowIdsNext(got, row, index, n, j);
      var hit := Hits(flag, mask, j);
      if hit {
        var pos := index * 16 + j;
        if pos >= n {
          j := j + 1;
          continue;
        }
        values := values + [pos];
      }
      mask := Shifted(mask, j);
      j := j + 1;
    }
  }

  method FlagsToInfo(flags: seq<bv16>, n: nat) returns (r: Unpacked)
    ensures r == Unpack(RowsOf(flags), n)
  {
    if flags == [] {
      return OutOfRange;
    }
    ghost var rows := RowsOf(flags);
    var tags := ReadTags(flags[0]);
    if |tags| != |flags| - 1 {
      return Mismatch;
    }
    var values := [];
    var i := 1;
    while i < |flags|
      invariant 1 <= i <= |flags|
      invariant values == IdsUpTo(rows, n, i - 1)
    {
      values := ReadWord(flags[i], tags[i - 1], n, values);
      i := i + 1;
    }
    return Ids(values);
  }
}
