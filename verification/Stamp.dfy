/**
 Blocklist stamps: a header word that says which groups of sixteen ids are present, followed by one
 word per present group. Words are rows of sixteen flags, most significant bit first.
 */
module Stamp {
  import opened Ranks

  type Rows = seq<seq<bool>>

  function Id(g: nat, p: nat): nat {
    16 * g + p
  }

  predicate Square(rows: Rows) {
    rows != [] && forall i :: 0 <= i < |rows| ==> |rows[i]| == 16
  }

  predicate Present(s: set<nat>, g: nat) {
    exists p: nat :: p < 16 && Id(g, p) in s
  }

  /** The row of group `g`, found by counting the groups before it. */
  function Row(rows: Rows, g: nat): (r: seq<bool>)
    requires Square(rows) && g < 16
    ensures |r| == 16
  {
    var d := 1 + Rank(rows[0], g);
    if d < |rows| then rows[d] else seq(16, _ => false)
  }

  predicate HeaderOk(header: seq<bool>, s: set<nat>) {
    |header| == 16 && forall g: nat :: g < 16 ==> (header[g] <==> Present(s, g))
  }

  predicate GroupOk(row: seq<bool>, g: nat, s: set<nat>) {
    |row| == 16 && forall p: nat :: p < 16 ==> (row[p] <==> Id(g, p) in s)
  }

  /** The canonical packing of a set of ids below 256. */
  predicate Stamped(rows: Rows, s: set<nat>) {
    && Square(rows) && HeaderOk(rows[0], s)
    && |rows| == 1 + Rank(rows[0], 16)
    && forall g: nat :: g < 16 && rows[0][g] ==> GroupOk(Row(rows, g), g, s)
  }

  // ---- Packing ---------------------------------------------------------------------------------

  function Unit(p: nat): (r: seq<bool>)
    requires p < 16
    ensures |r| == 16
  {
    seq(16, _ => false)[p := true]
  }

  /** Adds one id: updates its group's row or inserts a row at the group's rank. */
  function Packed(rows: Rows, g: nat, p: nat): Rows
    requires Square(rows) && g < 16 && p < 16 && |rows| == 1 + Rank(rows[0], 16)
  {
    RankFits(rows[0], g);
    var d := 1 + Rank(rows[0], g);
    if rows[0][g] then rows[d := rows[d][p := true]]
    else Spliced(rows, d, rows[0][g := true], Unit(p))
  }

  /** A new header, and `row` inserted at index `d`. */
  function Spliced(rows: Rows, d: nat, header: seq<bool>, row: seq<bool>): (r: Rows)
    requires 1 <= d <= |rows|
  {
    [header] + rows[1..d] + [row] + rows[d..]
  }

  lemma SplicedAt(rows: Rows, d: nat, header: seq<bool>, row: seq<bool>, i: nat)
    requires 1 <= d <= |rows| && 1 <= i < |rows|
    ensures |Spliced(rows, d, header, row)| == |rows| + 1
    ensures Spliced(rows, d, header, row)[0] == header && Spliced(rows, d, header, row)[d] == row
    ensures Spliced(rows, d, header, row)[if i < d then i else i + 1] == rows[i]
  {
  }

  lemma SplicedSquare(rows: Rows, d: nat, header: seq<bool>, row: seq<bool>)
    requires Square(rows) && 1 <= d <= |rows| && |header| == 16 && |row| == 16
    ensures Square(Spliced(rows, d, header, row))
    ensures |Spliced(rows, d, header, row)| == |rows| + 1
    ensures Spliced(rows, d, header, row)[0] == header && Spliced(rows, d, header, row)[d] == row
  {
  }

  lemma RankFits(header: seq<bool>, g: nat)
    requires |header| == 16 && g < 16
    ensures Rank(header, g) <= Rank(header, 16)
    ensures header[g] ==> Rank(header, g) < Rank(header, 16)
  {
    TagsGrow(header, g, 16);
    if header[g] {
      TagAtRank(header, g, 16);
    }
  }

  lemma RanksDiffer(header: seq<bool>, g: nat, k: nat)
    requires g < k < |header| && header[g]
    ensures Rank(header, g) < Rank(header, k)
  {
    TagAtRank(header, g, k);
  }

  lemma SameGroup(g: nat, p: nat, k: nat, j: nat)
    requires p < 16 && j < 16
    ensures Id(g, p) == Id(k, j) <==> g == k && p == j
  {
  }

  lemma HeaderGrows(header: seq<bool>, s: set<nat>, g: nat, p: nat)
    requires HeaderOk(header, s) && g < 16 && p < 16
    ensures HeaderOk(header[g := true], s + {Id(g, p)})
  {
    var t := s + {Id(g, p)};
    forall k: nat | k < 16
      ensures header[g := true][k] <==> Present(t, k)
    {
      if k == g {
        assert Id(k, p) in t;
      } else {
        forall j: nat | j < 16
          ensures Id(k, j) in t <==> Id(k, j) in s
        {
          SameGroup(g, p, k, j);
        }
      }
    }
  }

  /** A row of another group means the same once the id is added. */
  lemma OtherGroup(row: seq<bool>, k: nat, s: set<nat>, g: nat, p: nat)
    requires GroupOk(row, k, s) && k != g && p < 16
    ensures GroupOk(row, k, s + {Id(g, p)})
  {
    forall j: nat | j < 16
      ensures row[j] <==> Id(k, j) in s + {Id(g, p)}
    {
      SameGroup(g, p, k, j);
    }
  }

  lemma GroupGrows(row: seq<bool>, g: nat, s: set<nat>, p: nat)
    requires GroupOk(row, g, s) && p < 16
    ensures GroupOk(row[p := true], g, s + {Id(g, p)})
  {
    forall j: nat | j < 16
      ensures row[p := true][j] <==> Id(g, j) in s + {Id(g, p)}
    {
      SameGroup(g, p, g, j);
    }
  }

  lemma GroupStarts(header: seq<bool>, g: nat, s: set<nat>, p: nat)
    requires HeaderOk(header, s) && g < 16 && !header[g] && p < 16
    ensures GroupOk(Unit(p), g, s + {Id(g, p)})
  {
    forall j: nat | j < 16
      ensures Unit(p)[j] <==> Id(g, j) in s + {Id(g, p)}
    {
      SameGroup(g, p, g, j);
      assert Id(g, j) !in s;
    }
  }

  lemma UpdateStamps(rows: Rows, s: set<nat>, g: nat, p: nat)
    requires Stamped(rows, s) && g < 16 && p < 16 && rows[0][g]
    ensures Stamped(Packed(rows, g, p), s + {Id(g, p)})
  {
    var h := rows[0];
    RankFits(h, g);
    var d, next := 1 + Rank(h, g), Packed(rows, g, p);
    HeaderGrows(h, s, g, p);
    assert h[g := true] == h == next[0];
    forall k: nat | k < 16 && h[k]
      ensures GroupOk(Row(next, k), k, s + {Id(g, p)})
    {
      RankFits(h, k);
      if k == g {
        GroupGrows(rows[d], g, s, p);
      } else {
        if k < g { RanksDiffer(h, k, g); } else { RanksDiffer(h, g, k); }
        OtherGroup(Row(rows, k), k, s, g, p);
      }
    }
  }

  lemma InsertKeepsRow(rows: Rows, g: nat, d: nat, row: seq<bool>, k: nat)
    requires Square(rows) && |rows| == 1 + Rank(rows[0], 16) && |row| == 16
    requires g < 16 && !rows[0][g] && d == 1 + Rank(rows[0], g) <= |rows| && k < 16 && k != g && rows[0][k]
    ensures var next := Spliced(rows, d, rows[0][g := true], row);
            Square(next) && Row(next, k) == Row(rows, k)
  {
    var h := rows[0];
    SplicedSquare(rows, d, h[g := true], row);
    RankFits(h, k);
    RankWith(h, g, k);
    SplicedAt(rows, d, h[g := true], row, 1 + Rank(h, k));
    if k < g { RanksDiffer(h, k, g); } else { TagsGrow(h, g, k); }
  }

  lemma InsertStamps(rows: Rows, s: set<nat>, g: nat, p: nat)
    requires Stamped(rows, s) && g < 16 && p < 16 && !rows[0][g]
    ensures Stamped(Packed(rows, g, p), s + {Id(g, p)})
  {
    var h := rows[0];
    RankFits(h, g);
    var d, next := 1 + Rank(h, g), Packed(rows, g, p);
    SplicedSquare(rows, d, h[g := true], Unit(p));
    HeaderGrows(h, s, g, p);
    RankWith(h, g, 16);
    RankWith(h, g, g);
    forall k: nat | k < 16 && next[0][k]
      ensures GroupOk(Row(next, k), k, s + {Id(g, p)})
    {
      if k == g {
        GroupStarts(h, g, s, p);
      } else {
        InsertKeepsRow(rows, g, d, Unit(p), k);
        OtherGroup(Row(rows, k), k, s, g, p);
      }
    }
  }

  /** Packing an id keeps the canonical form, whether its group is new or not. */
  lemma PackedStamps(rows: Rows, s: set<nat>, g: nat, p: nat)
    requires Stamped(rows, s) && g < 16 && p < 16
    ensures Stamped(Packed(rows, g, p), s + {Id(g, p)})
  {
    if rows[0][g] {
      UpdateStamps(rows, s, g, p);
    } else {
      InsertStamps(rows, s, g, p);
    }
  }

  /** The packing is determined by the set of ids alone. */
  lemma Canonical(a: Rows, b: Rows, s: set<nat>)
    requires Stamped(a, s) && Stamped(b, s)
    ensures a == b
  {
    assert a[0] == b[0];
    forall i | 1 <= i < |a|
      ensures a[i] == b[i]
    {
      var g := Tags(a[0], 16)[i - 1];
      RankOfTag(a[0], 16, i - 1);
      assert GroupOk(Row(a, g), g, s) && GroupOk(Row(b, g), g, s);
    }
  }

  // ---- Unpacking -------------------------------------------------------------------------------

  datatype Unpacked = Ids(ids: seq<nat>) | Mismatch | OutOfRange

  /** The ids below `n` of the first `j` flags of a row. */
  function RowIds(row: seq<bool>, g: nat, n: nat, j: nat): seq<nat>
    requires j <= |row|
  {
    if j == 0 then [] else
      RowIds(row, g, n, j - 1) + (if row[j - 1] && Id(g, j - 1) < n then [Id(g, j - 1)] else [])
  }

  function IdsUpTo(rows: Rows, n: nat, i: nat): seq<nat>
    requires Square(rows) && i < |rows| && |rows| == 1 + Rank(rows[0], 16)
  {
    if i == 0 then [] else IdsUpTo(rows, n, i - 1) + RowIds(rows[i], Tags(rows[0], 16)[i - 1], n, 16)
  }

  /** What reading a stamp gives when `n` blocklists are loaded. */
  function Unpack(rows: Rows, n: nat): Unpacked
    requires forall i :: 0 <= i < |rows| ==> |rows[i]| == 16
  {
    if rows == [] then OutOfRange
    else if Rank(rows[0], 16) != |rows| - 1 then Mismatch
    else Ids(IdsUpTo(rows, n, |rows| - 1))
  }

  predicate Ascending(ids: seq<nat>) {
    forall i, j :: 0 <= i < j < |ids| ==> ids[i] < ids[j]
  }

  lemma AscendingJoin(a: seq<nat>, b: seq<nat>, m: nat)
    requires Ascending(a) && Ascending(b)
    requires (forall x :: x in a ==> x < m) && (forall x :: x in b ==> m <= x)
    ensures Ascending(a + b)
  {
    assert forall i :: 0 <= i < |a| ==> a[i] in a;
    assert forall i :: 0 <= i < |b| ==> b[i] in b;
  }

  lemma {:induction false} RowIdsAre(row: seq<bool>, g: nat, n: nat, j: nat)
    requires j <= |row| == 16
    ensures Ascending(RowIds(row, g, n, j))
    ensures forall x :: x in RowIds(row, g, n, j) ==> Id(g, 0) <= x < Id(g, j)
    ensures forall p: nat :: p < 16 ==> (Id(g, p) in RowIds(row, g, n, j) <==> p < j && row[p] && Id(g, p) < n)
  {
    if j > 0 {
      RowIdsAre(row, g, n, j - 1);
      if row[j - 1] && Id(g, j - 1) < n {
        AscendingJoin(RowIds(row, g, n, j - 1), [Id(g, j - 1)], Id(g, j - 1));
      }
    }
  }

  /** Ids read so far ascend and stay below the next group. */
  lemma {:induction false} IdsAscend(rows: Rows, n: nat, i: nat)
    requires Square(rows) && i < |rows| && |rows| == 1 + Rank(rows[0], 16)
    ensures Ascending(IdsUpTo(rows, n, i))
    ensures i > 0 ==> forall x :: x in IdsUpTo(rows, n, i) ==> x < Id(Tags(rows[0], 16)[i - 1], 16)
    ensures i == 0 ==> IdsUpTo(rows, n, i) == []
  {
    if i > 0 {
      IdsAscend(rows, n, i - 1);
      TagsAscend(rows[0], 16);
      RowJoins(IdsUpTo(rows, n, i - 1), rows[i], Tags(rows[0], 16)[i - 1], n);
    }
  }

  lemma RowJoins(before: seq<nat>, row: seq<bool>, g: nat, n: nat)
    requires Ascending(before) && (forall x :: x in before ==> x < Id(g, 0)) && |row| == 16
    ensures Ascending(before + RowIds(row, g, n, 16))
    ensures forall x :: x in before + RowIds(row, g, n, 16) ==> x < Id(g, 16)
  {
    RowIdsAre(row, g, n, 16);
    AscendingJoin(before, RowIds(row, g, n, 16), Id(g, 0));
  }

  lemma {:induction false} IdsAre(rows: Rows, n: nat, i: nat, g: nat, p: nat)
    requires Square(rows) && i < |rows| && |rows| == 1 + Rank(rows[0], 16) && g < 16 && p < 16
    ensures Id(g, p) in IdsUpTo(rows, n, i) <==>
            rows[0][g] && Rank(rows[0], g) < i && Row(rows, g)[p] && Id(g, p) < n
  {
    if i > 0 {
      var k := Tags(rows[0], 16)[i - 1];
      IdsAre(rows, n, i - 1, g, p);
      TagIs(rows[0], g, i - 1, k);
      InRow(rows[i], k, n, g, p);
    }
  }

  /** The `i`-th set bit of a header is `k`. */
  lemma TagIs(header: seq<bool>, g: nat, i: nat, k: nat)
    requires |header| == 16 && g < 16 && i < Rank(header, 16) && k == Tags(header, 16)[i]
    ensures k < 16 && (header[g] && Rank(header, g) == i <==> g == k)
  {
    RankOfTag(header, 16, i);
    if header[g] {
      TagAtRank(header, g, 16);
    }
  }

  lemma InRow(row: seq<bool>, k: nat, n: nat, g: nat, p: nat)
    requires |row| == 16 && g < 16 && p < 16
    ensures Id(g, p) in RowIds(row, k, n, 16) <==> g == k && row[p] && Id(g, p) < n
  {
    RowIdsAre(row, k, n, 16);
  }

  lemma {:induction false} IdsBelow(rows: Rows, n: nat, i: nat, x: nat)
    requires Square(rows) && i < |rows| && |rows| == 1 + Rank(rows[0], 16)
    requires x in IdsUpTo(rows, n, i)
    ensures x < 256 && x == Id(x / 16, x % 16)
  {
    IdsAscend(rows, n, i);
    RankOfTag(rows[0], 16, i - 1);
  }

  /** Reading the packing of a set gives its members below `n`, each once, in ascending order. */
  lemma RoundTrip(rows: Rows, s: set<nat>, n: nat)
    requires Stamped(rows, s) && forall x :: x in s ==> x < 256
    ensures Unpack(rows, n).Ids?
    ensures Ascending(Unpack(rows, n).ids)
    ensures forall x :: x in Unpack(rows, n).ids <==> x in s && x < n
  {
    var ids := IdsUpTo(rows, n, |rows| - 1);
    IdsAscend(rows, n, |rows| - 1);
    forall x: nat
      ensures x in ids <==> x in s && x < n
    {
      if x in ids {
        IdsBelow(rows, n, |rows| - 1, x);
      }
      if x < 256 {
        MemberReads(rows, s, n, x / 16, x % 16);
      }
    }
  }

  lemma MemberReads(rows: Rows, s: set<nat>, n: nat, g: nat, p: nat)
    requires Stamped(rows, s) && g < 16 && p < 16
    ensures Id(g, p) in IdsUpTo(rows, n, |rows| - 1) <==> Id(g, p) in s && Id(g, p) < n
  {
    IdsAre(rows, n, |rows| - 1, g, p);
    RankFits(rows[0], g);
    if rows[0][g] {
      assert GroupOk(Row(rows, g), g, s);
    } else {
      assert !Present(s, g);
    }
  }
}
