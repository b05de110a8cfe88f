/** The estimator as it runs: three arrays updated in place, one sample at a time. */
module P2QuantileCell {
  import opened Sorting
  import opened P2Quantile

  method BumpAbove(n: array<int>, k: int)
    requires Increasing(n[..]) && 0 <= k < n.Length
    modifies n
    ensures n[..] == Bumped(old(n[..]), k)
  {
    var i := k + 1;
    while i < n.Length
      invariant k + 1 <= i <= n.Length
      invariant forall j :: 0 <= j < n.Length ==> n[j] == if k < j < i then old(n[j]) + 1 else old(n[j])
    {
      n[i] := n[i] + 1;
      i := i + 1;
    }
  }

  method Scale(ns: array<real>, factor: real)
    modifies ns
    ensures ns[..] == Scaled(old(ns[..]), factor)
  {
    var i := 0;
    while i < ns.Length
      invariant i <= ns.Length
      invariant forall j :: 0 <= j < ns.Length ==> ns[j] == if j < i then old(ns[j]) * factor else old(ns[j])
    {
      ns[i] := ns[i] * factor;
      i := i + 1;
    }
    assert forall j :: 0 <= j < ns.Length ==> ns[..][j] == Scaled(old(ns[..]), factor)[j];
  }

  /** Updates the extremes and finds the sample's cell. */
  method Locate(q: array<real>, x: real) returns (k: int)
    requires q.Length >= 3
    modifies q
    ensures k == Cell(old(q[..]), x)
    ensures q[..] == Widened(old(q[..]), x)
  {
    var u := q.Length;
    if x < q[0] {
      q[0] := x;
      k := 0;
    } else if x > q[u - 1] {
      q[u - 1] := x;
      k := u - 2;
    } else {
      k := u - 2;
      var i := 1;
      while i <= u - 2
        invariant 1 <= i <= u - 1 && k == u - 2
        invariant CellFrom(q[..], x, i) == CellFrom(q[..], x, 1)
      {
        if x < q[i] {
          k := i - 1;
          break;
        }
        i := i + 1;
      }
    }
  }

  method FillPositions(n: array<int>)
    modifies n
    ensures n[..] == seq(n.Length, i => i)
  {
    var i := 0;
    while i < n.Length
      invariant i <= n.Length
      invariant forall j :: 0 <= j < i ==> n[j] == j
    {
      n[i] := i;
      i := i + 1;
    }
  }

  predicate Filled(ds: seq<real>, ns: seq<real>, last: real, k: int) {
    0 <= k <= |ns| == |ds| && forall j :: 0 <= j < k ==> ns[j] == ds[j] * last
  }

  lemma FilledAll(ds: seq<real>, ns: seq<real>, last: real)
    requires Filled(ds, ns, last, |ns|)
    ensures ns == Scaled(ds, last)
  {
    assert forall j :: 0 <= j < |ns| ==> ns[j] == Scaled(ds, last)[j];
  }

  lemma ShareBelow(p: real, u: int, i: int)
    requires u >= 3 && 0 <= i <= Mid(u)
    ensures Densities(p, u)[i] == p / (Mid(u) as real) * (i as real)
  {
  }

  lemma ShareAbove(p: real, u: int, i: int)
    requires u >= 3 && 1 <= i <= u - 1 - Mid(u)
    ensures Densities(p, u)[Mid(u) + i] == (1.0 - p) / ((u - 1 - Mid(u)) as real) * (i as real) + p
  {
  }

  method SetDesired(ns: array<real>, ghost ds: seq<real>, k: int, density: real, last: real)
    requires Filled(ds, ns[..], last, k) && k < ns.Length && density == ds[k]
    modifies ns
    ensures Filled(ds, ns[..], last, k + 1)
  {
    ns[k] := density * last;
  }

  /** The loop that spreads `p` over the markers up to the middle. */
  method FillLower(ns: array<real>, p: real)
    requires ns.Length >= 3
    modifies ns
    ensures Filled(Densities(p, ns.Length), ns[..], (ns.Length - 1) as real, Mid(ns.Length) + 1)
  {
    var u := ns.Length;
    ghost var ds := Densities(p, u);
    var last, mid := (u - 1) as real, Mid(u);
    var pmid := p / (mid as real);
    var i := 0;
    while i <= mid
      invariant 0 <= i <= mid + 1
      invariant Filled(ds, ns[..], last, i)
    {
      ShareBelow(p, u, i);
      SetDesired(ns, ds, i, pmid * (i as real), last);
      i := i + 1;
    }
  }

  /** The loop that spreads the rest over the markers above the middle. */
  method FillUpper(ns: array<real>, p: real)
    requires ns.Length >= 3
    requires Filled(Densities(p, ns.Length), ns[..], (ns.Length - 1) as real, Mid(ns.Length) + 1)
    modifies ns
    ensures Filled(Densities(p, ns.Length), ns[..], (ns.Length - 1) as real, ns.Length)
  {
    var u := ns.Length;
    ghost var ds := Densities(p, u);
    var last, mid := (u - 1) as real, Mid(u);
    var rem := u - 1 - mid;
    var smid := (1.0 - p) / (rem as real);
    var i := 1;
    while i <= rem
      invariant 1 <= i <= rem + 1
      invariant Filled(ds, ns[..], last, mid + i)
    {
      ShareAbove(p, u, i);
      SetDesired(ns, ds, mid + i, smid * (i as real) + p, last);
      i := i + 1;
    }
  }

  class Estimator {
    const p: real
    const u: int
    const n: array<int>
    const ns: array<real>
    const q: array<real>
    var count: int
    ghost var samples: seq<real>

    /** Few samples are kept in any order; from the `u`-th on the markers are those of the stream. */
    ghost predicate Valid()
      reads this, n, ns, q
    {
      && u >= 3 && 0.0 <= p <= 1.0
      && n.Length == ns.Length == q.Length == u && ns != q
      && count == |samples|
      && (count < u ==> multiset(q[..count]) == multiset(samples))
      && (count >= u ==> State() == Estimate(p, u, samples))
    }

    function State(): Markers
      reads this, n, ns, q
    {
      Markers(n[..], ns[..], q[..], count)
    }

    constructor (samples: int, probability: real)
      requires samples >= 3 && 0.0 <= probability <= 1.0
      ensures Valid() && this.samples == [] && p == probability && u == samples
      ensures fresh(n) && fresh(ns) && fresh(q)
    {
      p, u, count, this.samples := probability, samples, 0, [];
      n, ns, q := new int[samples], new real[samples], new real[samples];
    }

    method AdjustAt(i: int)
      requires Sound(State(), u) && 1 <= i < u - 1 && ns != q
      modifies n, q
      ensures State() == Adjusted(old(State()), u, i)
    {
      ghost var m := State();
      var d := ns[i] - (n[i] as real);
      if (d >= 1.0 && n[i + 1] - n[i] > 1) || (d <= -1.0 && n[i - 1] - n[i] < -1) {
        var di := Sign(d);
        var qs := Parabolic(State(), u, i, di as real);
        if q[i - 1] < qs < q[i + 1] {
          q[i] := qs;
        } else {
          q[i] := Linear(State(), u, i, di);
        }
        n[i] := n[i] + di;
        assert n[..] == m.n[i := m.n[i] + di];
        assert q[..] == m.q[i := Height(m, u, i, di)];
      }
    }

    method Adjust()
      requires Sound(State(), u) && ns != q
      modifies n, q
      ensures State() == AdjustedTo(old(State()), u, u - 2)
    {
      ghost var m := State();
      var i := 1;
      while i < u - 1
        invariant 1 <= i <= u - 1
        invariant State() == AdjustedTo(m, u, i - 1)
      {
        AdjustAt(i);
        i := i + 1;
      }
    }

    method AddLater(x: real)
      requires Sound(State(), u) && ns != q
      modifies this`count, n, ns, q
      ensures State() == Added(old(State()), u, x)
    {
      ghost var m := State();
      var k := Locate(q, x);
      BumpAbove(n, k);
      Scale(ns, (count as real) / ((count - 1) as real));
      assert State() == Counted(m, u, x);
      Adjust();
      count := count + 1;
    }

    method Start()
      requires u >= 3 && n.Length == ns.Length == q.Length == u && ns != q && count == u
      modifies n, ns, q
      ensures State() == Initial(p, u, old(q[..]))
    {
      SortPrefix(q, u);
      assert q[..u] == q[..] && old(q[..u]) == old(q[..]);
      FillPositions(n);
      FillLower(ns, p);
      FillUpper(ns, p);
      FilledAll(Densities(p, u), ns[..], (u - 1) as real);
    }

    /** One more sample: whatever was read in between, the markers are those of the whole stream. */
    method Add(x: real)
      requires Valid()
      modifies this, n, ns, q
      ensures Valid() && samples == old(samples) + [x]
    {
      ghost var xs := samples + [x];
      assert xs[..|xs| - 1] == samples;
      if count < u {
        q[count] := x;
        assert q[..count + 1] == q[..count] + [x];
        count := count + 1;
        samples := xs;
        if count == u {
          assert q[..count] == q[..];
          SortCanonical(q[..], samples);
          Start();
        }
      } else {
        AddLater(x);
        samples := xs;
      }
    }

    /** Reports the estimate in thousandths. Sorting the few samples in place loses nothing. */
    method Get() returns (ms: int)
      requires Valid()
      modifies q
      ensures Valid()
      ensures samples == [] ==> ms == 0
      ensures samples != [] ==> ms == Millis(Picked(p, u, samples))
    {
      var c := count;
      if c == 0 {
        return 0;
      }
      if c > u {
        return Millis(q[Mid(u)]);
      }
      Resort();
      var index := Index(p, c - 1);
      assert q[index] == q[..c][index];
      return Millis(q[index]);
    }

    method Resort()
      requires Valid() && count <= u
      modifies q
      ensures Valid() && q[..count] == Sort(samples)
    {
      ghost var before := q[..count];
      if count == u {
        assert q[..] == before == Sort(samples);
        SortPermutes(samples);
      }
      SortPrefix(q, count);
      SortCanonical(before, samples);
      SortPermutes(samples);
      if count == u {
        assert q[..] == q[..count];
      }
    }
  }
}
