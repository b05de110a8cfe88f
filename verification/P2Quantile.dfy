/**
 The P-square quantile estimator over exact reals: `u` markers follow the `p`-quantile of a stream
 without storing it. Positions are integers, heights and desired positions are reals.
 */
module P2Quantile {
  import opened Sorting

  /** Marker positions, desired positions and heights after `count` samples. */
  datatype Markers = Markers(n: seq<int>, ns: seq<real>, q: seq<real>, count: int)

  function Mid(u: int): int {
    u / 2
  }

  /** The share of the stream that marker `i` should have below it. */
  function Density(p: real, u: int, i: int): real
    requires u >= 3
  {
    if i <= Mid(u) then p / (Mid(u) as real) * (i as real)
    else (1.0 - p) / ((u - 1 - Mid(u)) as real) * ((i - Mid(u)) as real) + p
  }

  function Densities(p: real, u: int): (ds: seq<real>)
    requires u >= 3
    ensures |ds| == u
  {
    seq(u, i => Density(p, u, i))
  }

  predicate Increasing(n: seq<int>) {
    forall i, j :: 0 <= i < j < |n| ==> n[i] < n[j]
  }

  predicate Shaped(m: Markers, u: int) {
    u >= 3 && |m.n| == |m.ns| == |m.q| == u && m.count >= u
  }

  /** What every estimate divides by: positions never meet. */
  predicate Sound(m: Markers, u: int) {
    Shaped(m, u) && Increasing(m.n)
  }

  /** The markers once the first `u` samples are in. */
  function Initial(p: real, u: int, xs: seq<real>): (m: Markers)
    requires u >= 3 && |xs| == u
    ensures Sound(m, u)
  {
    Markers(seq(u, i => i), Scaled(Densities(p, u), (u - 1) as real), Sort(xs), u)
  }

  /** The cell a sample falls in, searched from marker `i` on. */
  function CellFrom(q: seq<real>, x: real, i: int): (k: int)
    requires 1 <= i < |q|
    ensures i - 1 <= k <= |q| - 2
    decreases |q| - i
  {
    if i > |q| - 2 then |q| - 2 else if x < q[i] then i - 1 else CellFrom(q, x, i + 1)
  }

  function Cell(q: seq<real>, x: real): (k: int)
    requires |q| >= 3
    ensures 0 <= k <= |q| - 2
  {
    if x < q[0] then 0 else if x > q[|q| - 1] then |q| - 2 else CellFrom(q, x, 1)
  }

  /** A sample moves an extreme marker when it is a new minimum or maximum. */
  function Widened(q: seq<real>, x: real): (r: seq<real>)
    requires |q| >= 3
    ensures |r| == |q|
  {
    if x < q[0] then q[0 := x] else if x > q[|q| - 1] then q[|q| - 1 := x] else q
  }

  /** Every marker above cell `k` moves one position up. */
  function Bumped(n: seq<int>, k: int): (r: seq<int>)
    requires Increasing(n)
    ensures |r| == |n| && Increasing(r)
  {
    seq(|n|, i requires 0 <= i < |n| => if i > k then n[i] + 1 else n[i])
  }

  function Scaled(ns: seq<real>, factor: real): (r: seq<real>)
    ensures |r| == |ns|
  {
    seq(|ns|, i requires 0 <= i < |ns| => ns[i] * factor)
  }

  /** Counts a sample into its cell and scales the desired positions. */
  function Counted(m: Markers, u: int, x: real): (r: Markers)
    requires Sound(m, u)
    ensures Sound(r, u) && r.count == m.count
  {
    Markers(Bumped(m.n, Cell(m.q, x)), Scaled(m.ns, (m.count as real) / ((m.count - 1) as real)), Widened(m.q, x), m.count)
  }

  function Parabolic(m: Markers, u: int, i: int, d: real): real
    requires Sound(m, u) && 1 <= i < u - 1
  {
    var ni, nij, nih := m.n[i] as real, m.n[i + 1] as real, m.n[i - 1] as real;
    m.q[i] + (d / (nij - nih)) * ((ni - nih + d) * (m.q[i + 1] - m.q[i]) / (nij - ni)
                                  + (nij - ni - d) * (m.q[i] - m.q[i - 1]) / (ni - nih))
  }

  function Linear(m: Markers, u: int, i: int, d: int): real
    requires Sound(m, u) && 1 <= i < u - 1 && (d == 1 || d == -1)
  {
    m.q[i] + (d as real) * (m.q[i + d] - m.q[i]) / ((m.n[i + d] as real) - (m.n[i] as real))
  }

  function Sign(d: real): int {
    if d < 0.0 then -1 else if d > 0.0 then 1 else 0
  }

  /** Marker `i` is a whole position off and has room to move. */
  predicate Moves(m: Markers, u: int, i: int)
    requires Shaped(m, u) && 1 <= i < u - 1
  {
    var d := m.ns[i] - (m.n[i] as real);
    (d >= 1.0 && m.n[i + 1] - m.n[i] > 1) || (d <= -1.0 && m.n[i - 1] - m.n[i] < -1)
  }

  function Height(m: Markers, u: int, i: int, d: int): real
    requires Sound(m, u) && 1 <= i < u - 1 && (d == 1 || d == -1)
  {
    var qs := Parabolic(m, u, i, d as real);
    if m.q[i - 1] < qs < m.q[i + 1] then qs else Linear(m, u, i, d)
  }

  lemma MovedIncreasing(n: seq<int>, i: int, h: int)
    requires Increasing(n) && 1 <= i < |n| - 1 && n[i - 1] < h < n[i + 1]
    ensures Increasing(n[i := h])
  {
    assert forall a :: 0 <= a < i ==> n[a] <= n[i - 1];
    assert forall b :: i < b < |n| ==> n[i + 1] <= n[b];
  }

  function Adjusted(m: Markers, u: int, i: int): (r: Markers)
    requires Sound(m, u) && 1 <= i < u - 1
    ensures Sound(r, u) && r.count == m.count && r.ns == m.ns
  {
    if !Moves(m, u, i) then m
    else
      var d := Sign(m.ns[i] - (m.n[i] as real));
      MovedIncreasing(m.n, i, m.n[i] + d);
      m.(q := m.q[i := Height(m, u, i, d)], n := m.n[i := m.n[i] + d])
  }

  /** Markers 1 to `i` adjusted, each seeing the ones before it already moved. */
  function AdjustedTo(m: Markers, u: int, i: nat): (r: Markers)
    requires Sound(m, u) && i < u - 1
    ensures Sound(r, u) && r.count == m.count && r.ns == m.ns
  {
    if i == 0 then m else Adjusted(AdjustedTo(m, u, i - 1), u, i)
  }

  /** One sample past the `u`-th. */
  function Added(m: Markers, u: int, x: real): (r: Markers)
    requires Sound(m, u)
    ensures Sound(r, u) && r.count == m.count + 1
  {
    AdjustedTo(Counted(m, u, x), u, u - 2).(count := m.count + 1)
  }

  /** The markers after a whole stream. */
  function Estimate(p: real, u: int, xs: seq<real>): (r: Markers)
    requires u >= 3 && |xs| >= u
    ensures Sound(r, u) && r.count == |xs|
  {
    if |xs| == u then Initial(p, u, xs) else Added(Estimate(p, u, xs[..|xs| - 1]), u, xs[|xs| - 1])
  }

  // ---- Positions and heights -------------------------------------------------------------------

  /** Heights sorted from `lo` to `hi`, positions from 0 to `top`. */
  predicate Ranged(m: Markers, u: int, lo: real, hi: real, top: int) {
    && Sound(m, u) && m.n[0] == 0 && m.n[u - 1] == top
    && Sorted(m.q) && m.q[0] == lo && m.q[u - 1] == hi
  }

  lemma QuotientShrinks(x: real, k: real)
    requires x >= 0.0 && k >= 1.0
    ensures 0.0 <= x / k <= x
  {
    assert x / k * k == x;
  }

  lemma NegatedQuotient(x: real, k: real)
    requires k != 0.0
    ensures -1.0 * x / k == -((-x) / (-k))
  {
  }

  /** The linear estimate stays between the neighbouring heights. */
  lemma LinearBetween(m: Markers, u: int, i: int, d: int)
    requires Sound(m, u) && 1 <= i < u - 1 && (d == 1 || d == -1) && Sorted(m.q)
    ensures m.q[i - 1] <= Linear(m, u, i, d) <= m.q[i + 1]
  {
    assert m.q[i - 1] <= m.q[i] <= m.q[i + 1];
    assert m.n[i - 1] < m.n[i] < m.n[i + 1];
    var dn := (m.n[i + d] as real) - (m.n[i] as real);
    if d == 1 {
      QuotientShrinks(m.q[i + 1] - m.q[i], dn);
    } else {
      QuotientShrinks(m.q[i] - m.q[i - 1], -dn);
      NegatedQuotient(m.q[i - 1] - m.q[i], dn);
    }
  }

  lemma MovedSorted(q: seq<real>, i: int, h: real)
    requires Sorted(q) && 1 <= i < |q| - 1 && q[i - 1] <= h <= q[i + 1]
    ensures Sorted(q[i := h])
  {
    assert forall a :: 0 <= a < i ==> q[a] <= q[i - 1];
    assert forall b :: i < b < |q| ==> q[i + 1] <= q[b];
  }

  lemma AdjustedRanged(m: Markers, u: int, i: int, lo: real, hi: real, top: int)
    requires Ranged(m, u, lo, hi, top) && 1 <= i < u - 1
    ensures Ranged(Adjusted(m, u, i), u, lo, hi, top)
  {
    if Moves(m, u, i) {
      var d := Sign(m.ns[i] - (m.n[i] as real));
      LinearBetween(m, u, i, d);
      MovedSorted(m.q, i, Height(m, u, i, d));
    }
  }

  lemma {:induction false} AdjustedToRanged(m: Markers, u: int, i: nat, lo: real, hi: real, top: int)
    requires Ranged(m, u, lo, hi, top) && i < u - 1
    ensures Ranged(AdjustedTo(m, u, i), u, lo, hi, top)
  {
    if i > 0 {
      AdjustedToRanged(m, u, i - 1, lo, hi, top);
      AdjustedRanged(AdjustedTo(m, u, i - 1), u, i, lo, hi, top);
    }
  }

  function Least(xs: seq<real>): (r: real)
    requires xs != []
    ensures r in xs && forall x :: x in xs ==> r <= x
  {
    if |xs| == 1 then xs[0]
    else
      var r, x := Least(xs[..|xs| - 1]), xs[|xs| - 1];
      assert xs == xs[..|xs| - 1] + [x];
      if x < r then x else r
  }

  function Greatest(xs: seq<real>): (r: real)
    requires xs != []
    ensures r in xs && forall x :: x in xs ==> x <= r
  {
    if |xs| == 1 then xs[0]
    else
      var r, x := Greatest(xs[..|xs| - 1]), xs[|xs| - 1];
      assert xs == xs[..|xs| - 1] + [x];
      if x > r then x else r
  }

  lemma SortedEnds(s: seq<real>, xs: seq<real>)
    requires Sorted(s) && multiset(s) == multiset(xs) && xs != []
    ensures s != [] && s[0] == Least(xs) && s[|s| - 1] == Greatest(xs)
  {
    var lo, hi := Least(xs), Greatest(xs);
    assert lo in multiset(xs) && hi in multiset(xs);
    assert lo in s && hi in s;
    assert s[0] in multiset(xs) && s[|s| - 1] in multiset(xs);
    assert s[0] in xs && s[|s| - 1] in xs;
  }

  lemma InitialRanged(p: real, u: int, xs: seq<real>)
    requires u >= 3 && |xs| == u
    ensures Ranged(Initial(p, u, xs), u, Least(xs), Greatest(xs), u - 1)
  {
    SortSorts(xs);
    SortPermutes(xs);
    SortedEnds(Sort(xs), xs);
  }

  lemma CountedRanged(m: Markers, u: int, x: real, lo: real, hi: real)
    requires Ranged(m, u, lo, hi, m.count - 1)
    ensures Ranged(Counted(m, u, x), u, if x < lo then x else lo, if x > hi then x else hi, m.count)
  {
    var k := Cell(m.q, x);
    assert Bumped(m.n, k)[0] == 0 && Bumped(m.n, k)[u - 1] == m.n[u - 1] + 1;
    assert m.q[0] <= m.q[u - 1];
  }

  lemma AddedRanged(m: Markers, u: int, x: real, lo: real, hi: real)
    requires Ranged(m, u, lo, hi, m.count - 1)
    ensures Ranged(Added(m, u, x), u, if x < lo then x else lo, if x > hi then x else hi, m.count)
  {
    var lo', hi' := if x < lo then x else lo, if x > hi then x else hi;
    CountedRanged(m, u, x, lo, hi);
    AdjustedToRanged(Counted(m, u, x), u, u - 2, lo', hi', m.count);
  }

  /**
   The marker invariant of every stream of at least `u` samples: strictly increasing positions from 0
   to count-1, and sorted heights from the least sample to the greatest.
   */
  lemma {:induction false} EveryStreamRanged(p: real, u: int, xs: seq<real>)
    requires u >= 3 && |xs| >= u
    ensures Ranged(Estimate(p, u, xs), u, Least(xs), Greatest(xs), |xs| - 1)
  {
    if |xs| == u {
      InitialRanged(p, u, xs);
    } else {
      var ys := xs[..|xs| - 1];
      EveryStreamRanged(p, u, ys);
      AddedRanged(Estimate(p, u, ys), u, xs[|xs| - 1], Least(ys), Greatest(ys));
    }
  }

  lemma {:induction false} CellFromHolds(q: seq<real>, x: real, i: int)
    requires |q| >= 3 && 1 <= i < |q| && q[i - 1] <= x <= q[|q| - 1]
    ensures var k := CellFrom(q, x, i); q[k] <= x <= q[k + 1]
    decreases |q| - i
  {
    if i <= |q| - 2 && x >= q[i] {
      CellFromHolds(q, x, i + 1);
    }
  }

  /** A sample is counted into the cell whose two heights surround it. */
  lemma CellHolds(q: seq<real>, x: real)
    requires |q| >= 3 && Sorted(q)
    ensures var k, w := Cell(q, x), Widened(q, x); w[k] <= x <= w[k + 1]
  {
    if q[0] <= x <= q[|q| - 1] {
      CellFromHolds(q, x, 1);
    }
  }

  // ---- Desired positions -----------------------------------------------------------------------

  /** Desired positions are the marker shares of the last position. */
  predicate Direct(ds: seq<real>, ns: seq<real>, last: real) {
    |ns| == |ds| && forall i :: 0 <= i < |ns| ==> ns[i] == ds[i] * last
  }

  lemma Rescale(d: real, c: real)
    requires c > 1.0
    ensures d * (c - 1.0) * (c / (c - 1.0)) == d * c
  {
    assert (c - 1.0) * (c / (c - 1.0)) == c;
    assert d * (c - 1.0) * (c / (c - 1.0)) == d * ((c - 1.0) * (c / (c - 1.0)));
  }

  lemma ScaledDirect(ds: seq<real>, ns: seq<real>, c: real)
    requires c > 1.0 && Direct(ds, ns, c - 1.0)
    ensures Direct(ds, Scaled(ns, c / (c - 1.0)), c)
  {
    forall i | 0 <= i < |ns|
      ensures Scaled(ns, c / (c - 1.0))[i] == ds[i] * c
    {
      Rescale(ds[i], c);
    }
  }

  lemma AddedDirect(ds: seq<real>, m: Markers, u: int, x: real)
    requires Sound(m, u) && Direct(ds, m.ns, (m.count - 1) as real)
    ensures Direct(ds, Added(m, u, x).ns, m.count as real)
  {
    var c := m.count as real;
    assert (m.count - 1) as real == c - 1.0;
    ScaledDirect(ds, m.ns, c);
    assert Counted(m, u, x).ns == Scaled(m.ns, c / (c - 1.0));
  }

  lemma SharesDirect(ds: seq<real>, last: real)
    ensures Direct(ds, Scaled(ds, last), last)
  {
  }

  lemma InitialDirect(p: real, u: int, xs: seq<real>)
    requires u >= 3 && |xs| == u
    ensures Direct(Densities(p, u), Initial(p, u, xs).ns, (u - 1) as real)
  {
    SharesDirect(Densities(p, u), (u - 1) as real);
  }

  /** Scaling by count/(count-1) at every sample is the same as the direct formula, for every stream. */
  lemma {:induction false} DesiredIsDirect(p: real, u: int, xs: seq<real>)
    requires u >= 3 && |xs| >= u
    ensures Direct(Densities(p, u), Estimate(p, u, xs).ns, (|xs| - 1) as real)
  {
    if |xs| == u {
      InitialDirect(p, u, xs);
    } else {
      var ys := xs[..|xs| - 1];
      DesiredIsDirect(p, u, ys);
      AddedDirect(Densities(p, u), Estimate(p, u, ys), u, xs[|xs| - 1]);
    }
  }

  lemma FullShare(p: real, k: real)
    requires k > 0.0
    ensures p / k * k == p
  {
  }

  lemma DensityEnds(p: real, u: int)
    requires u >= 3
    ensures var ds := Densities(p, u); ds[0] == 0.0 && ds[Mid(u)] == p && ds[u - 1] == 1.0
  {
    FullShare(p, Mid(u) as real);
    FullShare(1.0 - p, (u - 1 - Mid(u)) as real);
  }

  lemma DirectEnds(ds: seq<real>, ns: seq<real>, mid: int, p: real, last: real)
    requires Direct(ds, ns, last) && 0 <= mid < |ds|
    requires ds[0] == 0.0 && ds[mid] == p && ds[|ds| - 1] == 1.0
    ensures ns[0] == 0.0 && ns[mid] == p * last && ns[|ns| - 1] == last
  {
  }

  lemma ShareEnds(p: real, u: int, ns: seq<real>, last: real)
    requires u >= 3 && Direct(Densities(p, u), ns, last)
    ensures ns[0] == 0.0 && ns[Mid(u)] == p * last && ns[u - 1] == last
  {
    DensityEnds(p, u);
    DirectEnds(Densities(p, u), ns, Mid(u), p, last);
  }

  predicate OnTarget(p: real, u: int, m: Markers, top: int) {
    && Shaped(m, u)
    && m.ns[0] == m.n[0] as real
    && m.ns[Mid(u)] == p * (top as real)
    && m.ns[u - 1] == m.n[u - 1] as real
  }

  lemma EndsOnTarget(p: real, u: int, m: Markers, lo: real, hi: real, top: int)
    requires Ranged(m, u, lo, hi, top) && Direct(Densities(p, u), m.ns, top as real)
    ensures OnTarget(p, u, m, top)
  {
    ShareEnds(p, u, m.ns, top as real);
  }

  /** The middle marker aims at the p-quantile, and the end markers are exactly where they should be. */
  lemma EveryStreamOnTarget(p: real, u: int, xs: seq<real>)
    requires u >= 3 && |xs| >= u
    ensures OnTarget(p, u, Estimate(p, u, xs), |xs| - 1)
  {
    DesiredIsDirect(p, u, xs);
    EveryStreamRanged(p, u, xs);
    EndsOnTarget(p, u, Estimate(p, u, xs), Least(xs), Greatest(xs), |xs| - 1);
  }

  // ---- What the two estimates compute ----------------------------------------------------------

  lemma Cancelled(d: real, w: real, s: real)
    requires w != 0.0
    ensures d / w * (w * s) == d * s
  {
    assert d / w * w == d;
    assert d / w * (w * s) == d / w * w * s;
  }

  /** `e + (d / (a + b)) ((a + d) h / b + (b - d) l / a)` meets `e`, `e + h` and `e - l` at 0, `b` and `-a`. */
  lemma QuadraticMeets(a: real, b: real, h: real, l: real)
    requires a > 0.0 && b > 0.0
    ensures b / (a + b) * ((a + b) * h / b + (b - b) * l / a) == h
    ensures (-a) / (a + b) * ((a + -a) * h / b + (b - -a) * l / a) == -l
  {
    Quotient(a + b, h, b);
    Quotient(a + b, l, a);
    assert (b - b) * l / a == 0.0 && (a + -a) * h / b == 0.0 && b - -a == a + b;
    Cancelled(b, a + b, h / b);
    Cancelled(-a, a + b, l / a);
    assert (-a) * (l / a) == -(a * (l / a));
  }

  lemma Quotient(w: real, h: real, b: real)
    requires b > 0.0
    ensures w * h / b == w * (h / b) && b * (h / b) == h
  {
  }

  /** The parabolic estimate is the curve through a marker and its two neighbours. */
  lemma ParabolaInterpolates(m: Markers, u: int, i: int)
    requires Sound(m, u) && 1 <= i < u - 1
    ensures Parabolic(m, u, i, 0.0) == m.q[i]
    ensures Parabolic(m, u, i, (m.n[i + 1] as real) - (m.n[i] as real)) == m.q[i + 1]
    ensures Parabolic(m, u, i, (m.n[i - 1] as real) - (m.n[i] as real)) == m.q[i - 1]
  {
    assert m.n[i - 1] < m.n[i] < m.n[i + 1];
    var a, b := (m.n[i] as real) - (m.n[i - 1] as real), (m.n[i + 1] as real) - (m.n[i] as real);
    QuadraticMeets(a, b, m.q[i + 1] - m.q[i], m.q[i] - m.q[i - 1]);
    assert (m.n[i + 1] as real) - (m.n[i - 1] as real) == a + b;
    assert (m.n[i - 1] as real) - (m.n[i] as real) == -a;
  }

  // ---- The reported value ----------------------------------------------------------------------

  /** The height reported after a stream: a sample while there are few, the middle marker later. */
  function Picked(p: real, u: int, xs: seq<real>): real
    requires u >= 3 && 0.0 <= p <= 1.0 && xs != []
  {
    if |xs| > u then Estimate(p, u, xs).q[Mid(u)]
    else Sort(xs)[Index(p, |xs| - 1)]
  }

  /** The rank of the p-quantile among `last + 1` samples. */
  function Index(p: real, last: nat): (i: nat)
    requires 0.0 <= p <= 1.0
    ensures i <= last
  {
    assert 0.0 <= (last as real) * p <= last as real;
    ((last as real) * p).Floor
  }

  /** Seconds to whole milliseconds, truncated towards zero. */
  function Millis(x: real): int {
    if x >= 0.0 then (x * 1000.0).Floor else -((-x * 1000.0).Floor)
  }

  /** The reported height lies between the least and the greatest sample. */
  lemma PickedWithin(p: real, u: int, xs: seq<real>)
    requires u >= 3 && 0.0 <= p <= 1.0 && xs != []
    ensures Least(xs) <= Picked(p, u, xs) <= Greatest(xs)
  {
    if |xs| > u {
      EveryStreamRanged(p, u, xs);
      MiddleWithin(Estimate(p, u, xs), u, Least(xs), Greatest(xs), |xs| - 1);
    } else {
      RankWithin(xs, Index(p, |xs| - 1));
    }
  }

  lemma MiddleWithin(m: Markers, u: int, lo: real, hi: real, top: int)
    requires Ranged(m, u, lo, hi, top)
    ensures lo <= m.q[Mid(u)] <= hi
  {
    WithinEnds(m.q, Mid(u));
  }

  lemma RankWithin(xs: seq<real>, i: nat)
    requires i < |xs|
    ensures Least(xs) <= Sort(xs)[i] <= Greatest(xs)
  {
    SortSorts(xs);
    SortPermutes(xs);
    SortedEnds(Sort(xs), xs);
    WithinEnds(Sort(xs), i);
  }

  lemma WithinEnds(q: seq<real>, i: int)
    requires Sorted(q) && 0 <= i < |q|
    ensures q[0] <= q[i] <= q[|q| - 1]
  {
  }
}
